/**
  Paper execution under arbitrary interleaving: any number of workers, their renewal
  threads, crashes, and people deciding in between.

  Atomic steps: authorizing (reading the log, then appending), reading the status file, acquiring
  the lease, one heartbeat, the runner's consent check, the end of its executor, recording the
  execution, assert-owned-then-write, releasing.  The runner is the real one of
  run_approved_paper_execution.py; a lost lease does not stop it.
*/
module PaperInterleaving {
  import opened Options
  import Sets
  import opened PaperLease
  import opened PaperApproval
  import opened PaperExecution

  /** Where a worker stands.  `grant` indexes the grants ever issued. */
  datatype Phase =
    | Authorizing                                        // has read the log, about to approve
    | Admitted
    | Cleared                                            // passed the status gate
    | Leased(grant: nat, lost: bool)
    | Running(grant: nat, lost: bool, approval: Event)   // passed the consent check, executing
    | Recording(grant: nat, lost: bool, approval: Event) // executed, about to record it
    | Ran(grant: nat, lost: bool, code: int)
    | Closing(grant: nat)

  datatype Worker = Worker(request: Request, event: Event, phase: Phase)
  {
    predicate InFlight() { phase.Leased? || phase.Running? || phase.Recording? }
    predicate MayWrite() { InFlight() || phase.Ran? }
    predicate HasGrant() { MayWrite() || phase.Closing? }
  }

  datatype Write = Write(grant: nat, sha: Digest, status: Status)

  type Pair = (string, string)

  /** `executions` lists the (decision, construction) pairs the executor completed. */
  datatype System = System(
    log: Log,
    status: map<Digest, Status>,
    ledger: Ledger,
    workers: map<Owner, Worker>,
    writes: seq<Write>,
    executions: seq<Pair>)

  /** `Fails` is an exception the attempt turns into exit code 4, `Escapes` one it lets
      through, closing the lease without publishing. */
  datatype Move =
    | Arrive(owner: Owner, request: Request)
    | Approve(owner: Owner)
    | ReadStatus(owner: Owner)
    | TakeLease(owner: Owner, at: int)
    | Heartbeat(owner: Owner, beat: Beat)
    | CheckConsent(owner: Owner)
    | ExecutorEnds(owner: Owner, executor: Executor)
    | Record(owner: Owner)
    | Fails(owner: Owner)
    | Escapes(owner: Owner)
    | Publish(owner: Owner, beat: Beat)
    | Close(owner: Owner)
    | Crash(owner: Owner)
    | Decide(event: Event)

  function Sha(w: Worker): Digest { if w.request.construction.Some? then w.request.construction.value.sha else "" }

  function PairOf(r: Request): Pair
  {
    (if r.briefing.Some? then r.briefing.value.decision else "", if r.construction.Some? then r.construction.value.id else "")
  }

  function Seconds(w: Worker): int { if w.request.leaseSeconds.Some? then w.request.leaseSeconds.value else 0 }

  predicate Fresh(s: System, owner: Owner)
  {
    owner !in s.workers && forall g | g in s.ledger.issued :: g.owner != owner
  }

  /** The worker's automatic policy found nothing that authorizes or stops the pair. */
  predicate WillApprove(log: Log, r: Request)
  {
    && r.mode.Automatic? && r.construction.Some? && r.briefing.Some?
    && NeedsApproval(log, PairOf(r).0, PairOf(r).1, r.construction.value.sha, r.now, r.ttl)
  }

  function OwnApproval(r: Request): Event
    requires r.ttl.Some? && r.construction.Some?
  {
    SystemApproval(PairOf(r).0, PairOf(r).1, r.construction.value.sha, r.now, r.ttl.value)
  }

  function ArriveStep(s: System, owner: Owner, r: Request): System
  {
    if !Fresh(s, owner) || EarlyGate(r).Some? then s
    else if WillApprove(s.log, r) then s.(workers := s.workers[owner := Worker(r, OwnApproval(r), Authorizing)])
    else
      var a := Admit(s.log, r);
      if a.Stop? then s else s.(workers := s.workers[owner := Worker(r, a.event, Admitted)])
  }

  /** Appending the approval; a conflict, or an approval that does not last, ends the attempt. */
  function ApproveStep(s: System, owner: Owner): System
  {
    if owner !in s.workers || !s.workers[owner].phase.Authorizing? || s.workers[owner].request.construction.None? then s
    else
      var w := s.workers[owner];
      var t := s.(log := Append(s.log, w.event));
      if Conflicts(s.log, w.event) || Confirm(w.event, t.log, w.request).Stop? then t.(workers := s.workers - {owner})
      else Enter(t, owner, Admitted)
  }

  function ReadStep(s: System, owner: Owner): System
  {
    if owner !in s.workers || !s.workers[owner].phase.Admitted? then s
    else
      var w := s.workers[owner];
      var held := StatusGate(s.status, Sha(w), w.request.now, RetryWindow(w.request.retry), w.event.id);
      if held.Some? then s.(workers := s.workers - {owner})
      else s.(workers := s.workers[owner := w.(phase := Cleared)])
  }

  function TakeStep(s: System, owner: Owner, at: int): System
  {
    if owner !in s.workers || !s.workers[owner].phase.Cleared? then s
    else
      var w := s.workers[owner];
      var ledger := Apply(s.ledger, Acquire(Sha(w), owner, Seconds(w), at));
      if ledger == s.ledger then s.(workers := s.workers - {owner})
      else s.(ledger := ledger,
              workers := s.workers[owner := w.(phase := Leased(|s.ledger.issued|, false))])
  }

  function BeatStep(s: System, owner: Owner, beat: Beat): System
  {
    if owner !in s.workers || !s.workers[owner].MayWrite() || s.workers[owner].phase.lost then s
    else
      var w := s.workers[owner];
      if w.phase.grant < |s.ledger.issued| && beat.Some?
         && Renewable(s.ledger.rows, s.ledger.issued[w.phase.grant], beat.value)
      then s.(ledger := Apply(s.ledger, Renew(s.ledger.issued[w.phase.grant], Seconds(w), beat.value)))
      else s.(workers := s.workers[owner := w.(phase := w.phase.(lost := true))])
  }

  function Enter(s: System, owner: Owner, phase: Phase): System
    requires owner in s.workers
  {
    s.(workers := s.workers[owner := s.workers[owner].(phase := phase)])
  }

  function CheckStep(s: System, owner: Owner): System
  {
    if owner !in s.workers || !s.workers[owner].phase.Leased? then s
    else
      var w := s.workers[owner];
      var (decision, construction) := PairOf(w.request);
      var approval := Consent(s.log, decision, construction, Sha(w), w.request.now);
      Enter(s, owner, if approval.Some? then Running(w.phase.grant, w.phase.lost, approval.value)
                      else Ran(w.phase.grant, w.phase.lost, 4))
  }

  function ExecutorStep(s: System, owner: Owner, executor: Executor): System
  {
    if owner !in s.workers || !s.workers[owner].phase.Running? then s
    else
      var p := s.workers[owner].phase;
      if executor == ExitsWith(0) then
        Enter(s, owner, Recording(p.grant, p.lost, p.approval))
        .(executions := s.executions + [PairOf(s.workers[owner].request)])
      else Enter(s, owner, Ran(p.grant, p.lost, if executor.Raises? then 4 else executor.code))
  }

  function RecordStep(s: System, owner: Owner): System
  {
    if owner !in s.workers || !s.workers[owner].phase.Recording? then s
    else
      var p := s.workers[owner].phase;
      var event := ExecutedEvent(p.approval, s.workers[owner].request.now);
      Enter(s, owner, Ran(p.grant, p.lost, if Conflicts(s.log, event) then 5 else 0)).(log := Append(s.log, event))
  }

  function FailStep(s: System, owner: Owner): System
  {
    if owner !in s.workers || !s.workers[owner].InFlight() then s
    else Enter(s, owner, Ran(s.workers[owner].phase.grant, s.workers[owner].phase.lost, 4))
  }

  function EscapeStep(s: System, owner: Owner): System
  {
    if owner !in s.workers || !s.workers[owner].InFlight() then s
    else Enter(s, owner, Closing(s.workers[owner].phase.grant))
  }

  predicate Writes(s: System, owner: Owner, beat: Beat)
  {
    && owner in s.workers && s.workers[owner].phase.Ran?
    && !s.workers[owner].phase.lost && beat.Some?
    && s.workers[owner].phase.grant < |s.ledger.issued|
    && Renewable(s.ledger.rows, s.ledger.issued[s.workers[owner].phase.grant], beat.value)
  }

  function PublishStep(s: System, owner: Owner, beat: Beat): System
  {
    if owner !in s.workers || !s.workers[owner].phase.Ran? then s
    else
      var w := s.workers[owner];
      var closing := s.workers[owner := w.(phase := Closing(w.phase.grant))];
      if !Writes(s, owner, beat) then s.(workers := closing)
      else
        var st := Status(StateOf(w.phase.code), Some(w.request.now), Some(w.phase.code), None);
        s.(ledger := Apply(s.ledger, Renew(s.ledger.issued[w.phase.grant], Seconds(w), beat.value)),
           status := s.status[Sha(w) := st],
           writes := s.writes + [Write(w.phase.grant, Sha(w), st)],
           workers := closing)
  }

  function CloseStep(s: System, owner: Owner): System
  {
    if owner !in s.workers || !s.workers[owner].phase.Closing?
       || |s.ledger.issued| <= s.workers[owner].phase.grant then s
    else s.(ledger := Apply(s.ledger, Release(s.ledger.issued[s.workers[owner].phase.grant])),
            workers := s.workers - {owner})
  }

  function Next(s: System, m: Move): System
  {
    match m
    case Arrive(owner, r) => ArriveStep(s, owner, r)
    case Approve(owner) => ApproveStep(s, owner)
    case ReadStatus(owner) => ReadStep(s, owner)
    case TakeLease(owner, at) => TakeStep(s, owner, at)
    case Heartbeat(owner, beat) => BeatStep(s, owner, beat)
    case CheckConsent(owner) => CheckStep(s, owner)
    case ExecutorEnds(owner, executor) => ExecutorStep(s, owner, executor)
    case Record(owner) => RecordStep(s, owner)
    case Fails(owner) => FailStep(s, owner)
    case Escapes(owner) => EscapeStep(s, owner)
    case Publish(owner, beat) => PublishStep(s, owner, beat)
    case Close(owner) => CloseStep(s, owner)
    case Crash(owner) => s.(workers := s.workers - {owner})
    case Decide(e) => s.(log := Append(s.log, e))
  }

  function Run(s: System, moves: seq<Move>): System
    decreases |moves|
  {
    if moves == [] then s else Run(Next(s, moves[0]), moves[1..])
  }

  function Start(log: Log, status: map<Digest, Status>, rows: Rows): System
  {
    System(log, status, Ledger(rows, []), map[], [], [])
  }

  // ---------------------------------------------------------------- the path of a worker

  /** What one move can make of a worker that stays. */
  predicate Successor(w: Worker, v: Worker)
  {
    && v.request == w.request && v.event == w.event
    && (v.phase == w.phase ||
        match v.phase
        case Authorizing => false
        case Admitted => w.phase.Authorizing?
        case Cleared => w.phase.Admitted?
        case Leased(g, lost) =>
          (w.phase.Cleared? && !lost && MIN_LEASE_SECONDS <= Seconds(w)) || (w.phase.Leased? && g == w.phase.grant && lost)
        case Running(g, lost, a) =>
          || (w.phase.Leased? && g == w.phase.grant && lost == w.phase.lost && Concerns(a, PairOf(w.request).0, PairOf(w.request).1))
          || (w.phase.Running? && g == w.phase.grant && a == w.phase.approval && lost)
        case Recording(g, lost, a) =>
          (w.phase.Running? || w.phase.Recording?) && g == w.phase.grant && a == w.phase.approval && (lost || !w.phase.lost)
        case Ran(g, lost, code) =>
          || (w.InFlight() && g == w.phase.grant && lost == w.phase.lost)
          || (w.phase.Ran? && g == w.phase.grant && code == w.phase.code && lost)
        case Closing(g) => w.MayWrite() && g == w.phase.grant)
  }

  predicate RunnerMove(m: Move) { m.CheckConsent? || m.ExecutorEnds? || m.Record? || m.Fails? || m.Escapes? }

  lemma RunnerFollows(s: System, m: Move, o: Owner)
    requires RunnerMove(m) && o in s.workers
    ensures o in Next(s, m).workers && Successor(s.workers[o], Next(s, m).workers[o])
  {
  }

  lemma AttemptFollows(s: System, m: Move, o: Owner)
    requires !RunnerMove(m) && o in s.workers && o in Next(s, m).workers
    ensures Successor(s.workers[o], Next(s, m).workers[o])
  {
  }

  lemma NextFollows(s: System, m: Move, o: Owner)
    requires o in s.workers && o in Next(s, m).workers
    ensures Successor(s.workers[o], Next(s, m).workers[o])
  {
    if RunnerMove(m) {
      RunnerFollows(s, m, o);
    } else {
      AttemptFollows(s, m, o);
    }
  }

  predicate AtTheGate(w: Worker) { w.phase.Authorizing? || w.phase.Admitted? }

  lemma NewcomersArrive(s: System, m: Move, o: Owner)
    requires o !in s.workers && o in Next(s, m).workers
    ensures
      var w := Next(s, m).workers[o];
      && m == Arrive(o, w.request) && AtTheGate(w) && w.request.construction.Some?
      && (w.phase.Authorizing? ==> w.request.ttl.Some? && w.event == OwnApproval(w.request))
  {
  }

  // ---------------------------------------------------------------- who may write

  predicate DistinctOwners(issued: seq<Grant>)
  {
    forall i, j | 0 <= i < j < |issued| :: issued[i].owner != issued[j].owner
  }

  /** A worker past acquisition holds its own grant, and has not written with it while it
      still may; before, it was never granted anything. */
  predicate HoldsGrant(issued: seq<Grant>, writes: seq<Write>, owner: Owner, w: Worker)
  {
    && (w.HasGrant() ==>
          w.phase.grant < |issued| && issued[w.phase.grant].owner == owner && issued[w.phase.grant].sha == Sha(w))
    && (w.MayWrite() ==> forall i | 0 <= i < |writes| :: writes[i].grant != w.phase.grant)
    && (!w.HasGrant() ==> forall k | 0 <= k < |issued| :: issued[k].owner != owner)
  }

  predicate WorkersHoldGrants(s: System)
  {
    forall o | o in s.workers :: HoldsGrant(s.ledger.issued, s.writes, o, s.workers[o])
  }

  /** For one hash, statuses were written in the order their grants were issued. */
  ghost predicate WritesInGrantOrder(s: System)
  {
    && (forall i | 0 <= i < |s.writes| ::
          s.writes[i].grant < |s.ledger.issued| && s.ledger.issued[s.writes[i].grant].sha == s.writes[i].sha)
    && (forall i, j | 0 <= i < j < |s.writes| && s.writes[i].sha == s.writes[j].sha ::
          s.writes[i].grant < s.writes[j].grant)
  }

  ghost predicate Invariant(s: System)
  {
    && RowIsNewest(s.ledger)
    && DistinctOwners(s.ledger.issued)
    && WorkersHoldGrants(s)
    && WritesInGrantOrder(s)
  }

  lemma {:induction false} LastIssuedIsNewest(issued: seq<Grant>, k: nat)
    requires DistinctOwners(issued) && k < |issued|
    requires LastIssued(issued, issued[k].sha).Some?
    requires LastIssued(issued, issued[k].sha).value.owner == issued[k].owner
    ensures forall m | k < m < |issued| :: issued[m].sha != issued[k].sha
  {
    var n := |issued| - 1;
    if issued[n].sha == issued[k].sha {
      assert k == n;
    } else if k < n {
      LastIssuedIsNewest(issued[..n], k);
      assert forall m | k < m < n :: issued[..n][m] == issued[m];
    }
  }

  /** A worker whose assertion succeeds holds the newest grant of its hash: nobody was
      granted the hash after it. */
  lemma WriterHoldsNewestGrant(s: System, owner: Owner, beat: Beat)
    requires Invariant(s) && Writes(s, owner, beat)
    ensures
      var k := s.workers[owner].phase.grant;
      forall m | k < m < |s.ledger.issued| :: s.ledger.issued[m].sha != Sha(s.workers[owner])
  {
    var k := s.workers[owner].phase.grant;
    var g := s.ledger.issued[k];
    assert LastIssued(s.ledger.issued, g.sha).Some?;
    LastIssuedIsNewest(s.ledger.issued, k);
  }

  /** Issuing a grant to a worker that has none. */
  lemma GrantingKeepsHolders(s: System, owner: Owner, ledger: Ledger, g: Grant)
    requires DistinctOwners(s.ledger.issued) && WorkersHoldGrants(s) && WritesInGrantOrder(s)
    requires owner in s.workers && !s.workers[owner].HasGrant()
    requires ledger.issued == s.ledger.issued + [g] && g.owner == owner && g.sha == Sha(s.workers[owner])
    ensures
      var leased := s.workers[owner].(phase := Leased(|s.ledger.issued|, false));
      var t := s.(ledger := ledger, workers := s.workers[owner := leased]);
      DistinctOwners(t.ledger.issued) && WorkersHoldGrants(t) && WritesInGrantOrder(t)
  {
  }

  lemma TakeKeepsInvariant(s: System, owner: Owner, at: int)
    requires Invariant(s)
    ensures Invariant(TakeStep(s, owner, at))
  {
    var t := TakeStep(s, owner, at);
    if t.ledger != s.ledger {
      var w := s.workers[owner];
      ApplyKeepsRowNewest(s.ledger, Acquire(Sha(w), owner, Seconds(w), at));
      GrantingKeepsHolders(s, owner, t.ledger, t.ledger.issued[|s.ledger.issued|]);
    }
  }

  lemma BeatKeepsInvariant(s: System, owner: Owner, beat: Beat)
    requires Invariant(s)
    ensures Invariant(BeatStep(s, owner, beat))
  {
    var t := BeatStep(s, owner, beat);
    if t.ledger != s.ledger {
      var w := s.workers[owner];
      ApplyKeepsRowNewest(s.ledger, Renew(s.ledger.issued[w.phase.grant], Seconds(w), beat.value));
    }
  }

  lemma PublishKeepsInvariant(s: System, owner: Owner, beat: Beat)
    requires Invariant(s)
    ensures Invariant(PublishStep(s, owner, beat))
  {
    if Writes(s, owner, beat) {
      var w := s.workers[owner];
      var t := PublishStep(s, owner, beat);
      WriterHoldsNewestGrant(s, owner, beat);
      ApplyKeepsRowNewest(s.ledger, Renew(s.ledger.issued[w.phase.grant], Seconds(w), beat.value));
      forall i | 0 <= i < |s.writes| && s.writes[i].sha == Sha(w)
        ensures s.writes[i].grant < w.phase.grant
      {
        assert s.writes[i].grant != w.phase.grant;
      }
      forall o, i | o in t.workers && t.workers[o].MayWrite() && 0 <= i < |t.writes|
        ensures t.writes[i].grant != t.workers[o].phase.grant
      {
        assert o != owner && t.workers[o] == s.workers[o];
        if i == |s.writes| {
          assert s.ledger.issued[w.phase.grant].owner == owner;
        }
      }
    }
  }

  lemma CloseKeepsInvariant(s: System, owner: Owner)
    requires Invariant(s)
    ensures Invariant(CloseStep(s, owner))
  {
  }

  lemma UpdateKeepsInvariant(s: System, t: System, owner: Owner, w: Worker)
    requires Invariant(s) && t.ledger == s.ledger && t.writes == s.writes && t.workers == s.workers[owner := w]
    requires HoldsGrant(s.ledger.issued, s.writes, owner, w)
    ensures Invariant(t)
  {
  }

  lemma ArriveKeepsInvariant(s: System, owner: Owner, r: Request)
    requires Invariant(s)
    ensures Invariant(ArriveStep(s, owner, r))
  {
    var t := ArriveStep(s, owner, r);
    if t != s {
      UpdateKeepsInvariant(s, t, owner, t.workers[owner]);
    }
  }

  lemma ApproveKeepsInvariant(s: System, owner: Owner)
    requires Invariant(s)
    ensures Invariant(ApproveStep(s, owner))
  {
    var t := ApproveStep(s, owner);
    if owner in t.workers && t != s {
      UpdateKeepsInvariant(s, t, owner, t.workers[owner]);
    }
  }

  lemma ReadKeepsInvariant(s: System, owner: Owner)
    requires Invariant(s)
    ensures Invariant(ReadStep(s, owner))
  {
  }

  lemma RunnerKeepsInvariant(s: System, m: Move)
    requires Invariant(s) && RunnerMove(m)
    ensures Invariant(Next(s, m))
  {
    if Next(s, m) != s {
      UpdateKeepsInvariant(s, Next(s, m), m.owner, Next(s, m).workers[m.owner]);
    }
  }

  lemma NextKeepsInvariant(s: System, m: Move)
    requires Invariant(s)
    ensures Invariant(Next(s, m))
  {
    match m
    case Arrive(owner, r) => ArriveKeepsInvariant(s, owner, r);
    case Approve(owner) => ApproveKeepsInvariant(s, owner);
    case ReadStatus(owner) => ReadKeepsInvariant(s, owner);
    case TakeLease(owner, at) => TakeKeepsInvariant(s, owner, at);
    case Heartbeat(owner, beat) => BeatKeepsInvariant(s, owner, beat);
    case CheckConsent(_) => RunnerKeepsInvariant(s, m);
    case ExecutorEnds(_, _) => RunnerKeepsInvariant(s, m);
    case Record(_) => RunnerKeepsInvariant(s, m);
    case Fails(_) => RunnerKeepsInvariant(s, m);
    case Escapes(_) => RunnerKeepsInvariant(s, m);
    case Publish(owner, beat) => PublishKeepsInvariant(s, owner, beat);
    case Close(owner) => CloseKeepsInvariant(s, owner);
    case Crash(owner) =>
    case Decide(e) =>
  }

  lemma {:induction false} RunKeepsInvariant(s: System, moves: seq<Move>)
    requires Invariant(s)
    ensures Invariant(Run(s, moves))
    decreases |moves|
  {
    if moves != [] {
      NextKeepsInvariant(s, moves[0]);
      RunKeepsInvariant(Next(s, moves[0]), moves[1..]);
    }
  }

  /** In every interleaving, from any log, status files and leftover lease rows: the statuses
      of one hash are written in grant order, at most one per grant, so a worker that lost its
      lease to another never overwrites what the newer owner wrote. */
  lemma StatusWritesFollowGrants(log: Log, status: map<Digest, Status>, rows: Rows, moves: seq<Move>)
    ensures WritesInGrantOrder(Run(Start(log, status, rows), moves))
  {
    RunKeepsInvariant(Start(log, status, rows), moves);
  }

  /** A worker superseded by a later grant of its hash changes no status, whatever it does next. */
  lemma SupersededWorkerCannotWrite(log: Log, status: map<Digest, Status>, rows: Rows, moves: seq<Move>,
                                    owner: Owner, beat: Beat, later: nat)
    requires
      var s := Run(Start(log, status, rows), moves);
      && owner in s.workers && s.workers[owner].phase.Ran?
      && s.workers[owner].phase.grant < later < |s.ledger.issued|
      && s.ledger.issued[later].sha == Sha(s.workers[owner])
    ensures
      var s := Run(Start(log, status, rows), moves);
      && Next(s, Publish(owner, beat)).status == s.status
      && Next(s, Publish(owner, beat)).ledger == s.ledger
  {
    RunKeepsInvariant(Start(log, status, rows), moves);
    var s := Run(Start(log, status, rows), moves);
    if Writes(s, owner, beat) {
      WriterHoldsNewestGrant(s, owner, beat);
      assert false;
    }
  }

  // ---------------------------------------------------------------- how often a pair is executed

  function Occurrences(pairs: seq<Pair>, p: Pair): nat
  {
    if pairs == [] then 0
    else Occurrences(pairs[..|pairs| - 1], p) + if pairs[|pairs| - 1] == p then 1 else 0
  }

  function Completions(s: System, p: Pair): nat { Occurrences(s.executions, p) }

  predicate IsRunning(s: System, owner: Owner, p: Pair)
  {
    owner in s.workers && s.workers[owner].phase.Running? && PairOf(s.workers[owner].request) == p
  }

  function Runners(s: System, p: Pair): set<Owner> { set o | o in s.workers && IsRunning(s, o, p) }

  /** How often the pair will have been executed if every executor now running returns 0. */
  function Committed(s: System, p: Pair): nat { Completions(s, p) + |Runners(s, p)| }

  /** The move lets one more executor start. */
  predicate Passes(s: System, m: Move, p: Pair)
  {
    && m.CheckConsent? && m.owner in s.workers && s.workers[m.owner].phase.Leased?
    && PairOf(s.workers[m.owner].request) == p && CheckStep(s, m.owner).workers[m.owner].phase.Running?
  }

  lemma OccurrencesAfter(pairs: seq<Pair>, q: Pair, p: Pair)
    ensures Occurrences(pairs + [q], p) == Occurrences(pairs, p) + if p == q then 1 else 0
  {
    assert (pairs + [q])[..|pairs|] == pairs;
  }

  lemma PassingCommits(s: System, m: Move, p: Pair)
    requires Passes(s, m, p)
    ensures Committed(Next(s, m), p) == Committed(s, p) + 1 && Completions(Next(s, m), p) == Completions(s, p)
  {
    assert Runners(Next(s, m), p) == Runners(s, p) + {m.owner};
  }

  lemma EndingCommits(s: System, owner: Owner, executor: Executor, p: Pair)
    requires owner in s.workers && s.workers[owner].phase.Running?
    ensures
      var t := ExecutorStep(s, owner, executor);
      && Runners(t, p) == Runners(s, p) - {owner}
      && Completions(t, p) == Completions(s, p) + (if executor == ExitsWith(0) && IsRunning(s, owner, p) then 1 else 0)
      && Committed(t, p) == Committed(s, p) - (if executor != ExitsWith(0) && IsRunning(s, owner, p) then 1 else 0)
  {
    var t := ExecutorStep(s, owner, executor);
    OccurrencesAfter(s.executions, PairOf(s.workers[owner].request), p);
    assert forall o | o != owner :: IsRunning(t, o, p) <==> IsRunning(s, o, p);
    assert !IsRunning(t, owner, p);
    assert Runners(t, p) == Runners(s, p) - {owner};
  }

  lemma NobodyStarts(s: System, m: Move, p: Pair, o: Owner)
    requires !Passes(s, m, p) && IsRunning(Next(s, m), o, p)
    ensures IsRunning(s, o, p)
  {
  }

  /** Only passing the consent check commits to one more execution. */
  lemma NextCommits(s: System, m: Move, p: Pair)
    ensures Completions(s, p) <= Completions(Next(s, m), p)
    ensures Passes(s, m, p) ==> Committed(Next(s, m), p) == Committed(s, p) + 1
    ensures !Passes(s, m, p) ==> Committed(Next(s, m), p) <= Committed(s, p)
  {
    if Passes(s, m, p) {
      PassingCommits(s, m, p);
    } else if m.ExecutorEnds? && m.owner in s.workers && s.workers[m.owner].phase.Running? {
      EndingCommits(s, m.owner, m.executor, p);
    } else {
      var t := Next(s, m);
      forall o | o in Runners(t, p)
        ensures o in Runners(s, p)
      {
        NobodyStarts(s, m, p, o);
      }
      Sets.SubsetCount(Runners(t, p), Runners(s, p));
    }
  }

  predicate OnlyExecutorsEnd(moves: seq<Move>) { forall i | 0 <= i < |moves| :: moves[i].ExecutorEnds? }

  lemma {:induction false} EndingsStayCommitted(s: System, endings: seq<Move>, p: Pair)
    requires OnlyExecutorsEnd(endings)
    ensures Completions(Run(s, endings), p) <= Committed(s, p)
    decreases |endings|
  {
    if endings != [] {
      NextCommits(s, endings[0], p);
      EndingsStayCommitted(Next(s, endings[0]), endings[1..], p);
    }
  }

  /** The commitment can be called in at any time: all it takes is that executors return. */
  lemma {:induction false} CommitmentIsReached(s: System, p: Pair) returns (endings: seq<Move>)
    ensures OnlyExecutorsEnd(endings) && Completions(Run(s, endings), p) == Committed(s, p)
    decreases |Runners(s, p)|
  {
    endings := [];
    if Runners(s, p) != {} {
      var o :| o in Runners(s, p);
      var m := ExecutorEnds(o, ExitsWith(0));
      var t := Next(s, m);
      EndingCommits(s, o, ExitsWith(0), p);
      var rest := CommitmentIsReached(t, p);
      endings := [m] + rest;
      assert endings[1..] == rest;
    }
  }

  /** Every consent check of the pair is passed only while the pair neither was executed nor
      is being executed. */
  predicate Guarded(s: System, moves: seq<Move>, p: Pair)
    decreases |moves|
  {
    moves == [] || ((Passes(s, moves[0], p) ==> Committed(s, p) == 0) && Guarded(Next(s, moves[0]), moves[1..], p))
  }

  /** At every moment of the run, whatever the executors then running go on to return, the pair
      is executed at most once. */
  ghost predicate AtMostOnce(s: System, moves: seq<Move>, p: Pair)
  {
    forall k: nat, endings | k <= |moves| && OnlyExecutorsEnd(endings) ::
      Completions(Run(Run(s, moves[..k]), endings), p) <= 1
  }

  lemma {:induction false} GuardedStaysAtOne(s: System, moves: seq<Move>, k: nat, p: Pair)
    requires Committed(s, p) <= 1 && Guarded(s, moves, p) && k <= |moves|
    ensures Committed(Run(s, moves[..k]), p) <= 1
    decreases k
  {
    if k > 0 {
      NextCommits(s, moves[0], p);
      GuardedStaysAtOne(Next(s, moves[0]), moves[1..], k - 1, p);
      assert moves[..k][1..] == moves[1..][..k - 1];
    }
  }

  lemma {:induction false} UnguardedCommitsTwice(s: System, moves: seq<Move>, p: Pair) returns (k: nat)
    requires !Guarded(s, moves, p)
    ensures k <= |moves| && 2 <= Committed(Run(s, moves[..k]), p)
    decreases |moves|
  {
    NextCommits(s, moves[0], p);
    if Passes(s, moves[0], p) && Committed(s, p) != 0 {
      k := 1;
      assert moves[..1][1..] == [];
    } else {
      var n := UnguardedCommitsTwice(Next(s, moves[0]), moves[1..], p);
      k := n + 1;
      assert moves[..k][1..] == moves[1..][..n];
    }
  }

  /** In every interleaving, with expired leases, crashes and stale readings included: a pair
      is executed at most once exactly when every consent check of it is passed while it
      neither was executed nor is being executed. */
  lemma ExecutedAtMostOnceIff(log: Log, status: map<Digest, Status>, rows: Rows, moves: seq<Move>, p: Pair)
    ensures AtMostOnce(Start(log, status, rows), moves, p) <==> Guarded(Start(log, status, rows), moves, p)
  {
    var s := Start(log, status, rows);
    assert Runners(s, p) == {};
    if Guarded(s, moves, p) {
      forall k: nat, endings | k <= |moves| && OnlyExecutorsEnd(endings)
        ensures Completions(Run(Run(s, moves[..k]), endings), p) <= 1
      {
        GuardedStaysAtOne(s, moves, k, p);
        EndingsStayCommitted(Run(s, moves[..k]), endings, p);
      }
    } else {
      var k := UnguardedCommitsTwice(s, moves, p);
      var endings := CommitmentIsReached(Run(s, moves[..k]), p);
      assert Completions(Run(Run(s, moves[..k]), endings), p) >= 2;
    }
  }

  // ---------------------------------------------------------------- what the leases contribute

  predicate Flies(s: System, owner: Owner, sha: Digest)
  {
    owner in s.workers && s.workers[owner].InFlight() && Sha(s.workers[owner]) == sha
  }

  predicate OwnsRow(s: System, owner: Owner)
    requires owner in s.workers && s.workers[owner].HasGrant()
  {
    var k := s.workers[owner].phase.grant;
    k < |s.ledger.issued| && Matches(s.ledger.rows, s.ledger.issued[k])
  }

  /** Nobody asks for the hash's lease at or after its expiry while a worker is in flight. */
  predicate NoTakeover(s: System, m: Move, sha: Digest)
  {
    m.TakeLease? && m.owner in s.workers && Sha(s.workers[m.owner]) == sha ==>
      forall o | o in s.workers && Flies(s, o, sha) :: sha in s.ledger.rows && m.at < s.ledger.rows[sha].expires
  }

  ghost predicate FlyersOwnRows(s: System, sha: Digest)
  {
    forall o | Flies(s, o, sha) :: OwnsRow(s, o)
  }

  lemma TakingKeepsRow(s: System, owner: Owner, at: int, sha: Digest, o: Owner)
    requires Invariant(s) && FlyersOwnRows(s, sha) && NoTakeover(s, TakeLease(owner, at), sha)
    requires Flies(TakeStep(s, owner, at), o, sha)
    ensures OwnsRow(TakeStep(s, owner, at), o)
  {
    if o != owner {
      assert Flies(s, o, sha) && OwnsRow(s, o);
      assert HoldsGrant(s.ledger.issued, s.writes, o, s.workers[o]);
    }
  }

  /** Only its own holder can release a row that names it. */
  lemma ClosingKeepsRow(s: System, owner: Owner, o: Owner)
    requires Invariant(s) && o != owner && o in s.workers && s.workers[o].HasGrant() && OwnsRow(s, o)
    ensures o in CloseStep(s, owner).workers && OwnsRow(CloseStep(s, owner), o)
  {
    assert HoldsGrant(s.ledger.issued, s.writes, o, s.workers[o]);
    if owner in s.workers {
      assert HoldsGrant(s.ledger.issued, s.writes, owner, s.workers[owner]);
    }
  }

  lemma StayingKeepsRow(s: System, m: Move, sha: Digest, o: Owner)
    requires !m.TakeLease? && !m.Close? && Flies(Next(s, m), o, sha)
    ensures Flies(s, o, sha)
    ensures OwnsRow(s, o) ==> OwnsRow(Next(s, m), o)
  {
    StillFlies(s, m, sha, o);
    LedgerFollows(s, m);
  }

  lemma StillFlies(s: System, m: Move, sha: Digest, o: Owner)
    requires !m.TakeLease? && Flies(Next(s, m), o, sha)
    ensures Flies(s, o, sha) && Next(s, m).workers[o].phase.grant == s.workers[o].phase.grant
  {
    if o !in s.workers {
      NewcomersArrive(s, m, o);
    } else {
      NextFollows(s, m, o);
      if s.workers[o].phase.Cleared? {
        OnlyTakersLease(s, m, o);
      }
    }
  }

  lemma OnlyTakersLease(s: System, m: Move, o: Owner)
    requires o in s.workers && s.workers[o].phase.Cleared? && !m.TakeLease? && o in Next(s, m).workers
    ensures Next(s, m).workers[o] == s.workers[o]
  {
  }

  /** As long as leases are asked for only before they expire, workers in flight keep their
      row, so a hash has at most one of them (`OneFlies`). */
  lemma FlyersKeepRows(s: System, m: Move, sha: Digest)
    requires Invariant(s) && FlyersOwnRows(s, sha) && NoTakeover(s, m, sha)
    ensures FlyersOwnRows(Next(s, m), sha)
  {
    forall o | Flies(Next(s, m), o, sha)
      ensures OwnsRow(Next(s, m), o)
    {
      if m.TakeLease? {
        TakingKeepsRow(s, m.owner, m.at, sha, o);
      } else if m.Close? {
        assert Flies(s, o, sha);
        if o != m.owner {
          ClosingKeepsRow(s, m.owner, o);
        }
      } else {
        StayingKeepsRow(s, m, sha, o);
      }
    }
  }

  lemma OneFlies(s: System, sha: Digest, o: Owner, o': Owner)
    requires Invariant(s) && FlyersOwnRows(s, sha) && Flies(s, o, sha) && Flies(s, o', sha)
    ensures o == o'
  {
    assert HoldsGrant(s.ledger.issued, s.writes, o, s.workers[o]);
    assert HoldsGrant(s.ledger.issued, s.writes, o', s.workers[o']);
  }

  predicate IsRecording(s: System, owner: Owner, p: Pair)
  {
    owner in s.workers && s.workers[owner].phase.Recording? && PairOf(s.workers[owner].request) == p
  }

  /** Besides `NoTakeover`: the pair stands for one hash, no worker is interrupted between
      executing and recording, nobody records an execution by hand, and nobody, an automatic
      policy that read the log earlier included, approves the pair after an execution was
      recorded. */
  predicate OrderlyMove(s: System, m: Move, p: Pair, sha: Digest)
  {
    && NoTakeover(s, m, sha)
    && match m
       case Arrive(_, r) => PairOf(r) == p && r.construction.Some? ==> r.construction.value.sha == sha
       case Crash(o) => !IsRecording(s, o, p)
       case Fails(o) => !IsRecording(s, o, p)
       case Escapes(o) => !IsRecording(s, o, p)
       case Decide(e) =>
         NeverExecuted([e], p.0, p.1) && (IsApprovalOf(e, p.0, p.1) ==> NeverExecuted(s.log, p.0, p.1))
       case Approve(o) =>
         o in s.workers && s.workers[o].phase.Authorizing? && PairOf(s.workers[o].request) == p ==> NeverExecuted(s.log, p.0, p.1)
       case _ => true
  }

  predicate Orderly(s: System, moves: seq<Move>, p: Pair, sha: Digest)
    decreases |moves|
  {
    moves == [] || (OrderlyMove(s, moves[0], p, sha) && Orderly(Next(s, moves[0]), moves[1..], p, sha))
  }

  /** Workers of the pair execute its one hash, under approvals of their own pair. */
  predicate Fits(w: Worker, p: Pair, sha: Digest)
  {
    && (PairOf(w.request) == p ==> Sha(w) == sha)
    && (w.phase.Authorizing? ==>
          Concerns(w.event, PairOf(w.request).0, PairOf(w.request).1) && w.event.id.kind.Approved? && w.event.state.Approved?)
    && (w.phase.Running? || w.phase.Recording? ==>
          Concerns(w.phase.approval, PairOf(w.request).0, PairOf(w.request).1))
  }

  predicate WorkersFit(s: System, p: Pair, sha: Digest)
  {
    forall o | o in s.workers :: Fits(s.workers[o], p, sha)
  }

  /** Not executed; executed and about to be recorded; or executed, recorded and stopped. */
  ghost predicate Stage(s: System, p: Pair)
  {
    if Completions(s, p) == 0 then
      NeverExecuted(s.log, p.0, p.1) && forall o :: !IsRecording(s, o, p)
    else
      && Completions(s, p) == 1
      && if exists o :: IsRecording(s, o, p) then NeverExecuted(s.log, p.0, p.1)
         else Stopped(s.log, p.0, p.1) && !NeverExecuted(s.log, p.0, p.1) && forall o :: !IsRunning(s, o, p)
  }

  ghost predicate Tidy(s: System, p: Pair, sha: Digest)
  {
    Invariant(s) && FlyersOwnRows(s, sha) && WorkersFit(s, p, sha) && Stage(s, p)
  }

  /** Only a worker of the pair that changes its phase, or the log, can change the stage. */
  lemma StageDependsOn(s: System, t: System, p: Pair)
    requires Stage(s, p) && t.executions == s.executions
    requires forall o :: (IsRecording(t, o, p) <==> IsRecording(s, o, p)) && (IsRunning(t, o, p) ==> IsRunning(s, o, p))
    requires NeverExecuted(s.log, p.0, p.1) <==> NeverExecuted(t.log, p.0, p.1)
    requires Stopped(s.log, p.0, p.1) ==> Stopped(t.log, p.0, p.1)
    ensures Stage(t, p)
  {
  }

  lemma StageOf(s: System, t: System, p: Pair)
    requires Stage(s, p) && t.log == s.log && Completions(t, p) == Completions(s, p)
    requires forall o :: IsRecording(t, o, p) <==> IsRecording(s, o, p)
    requires forall o :: IsRunning(t, o, p) ==> IsRunning(s, o, p)
    ensures Stage(t, p)
  {
  }

  /** Appending an event that records no execution of the pair; it approves the pair only
      while none is recorded. */
  lemma AppendingKeepsStage(s: System, t: System, e: Event, p: Pair)
    requires Stage(s, p) && t.log == Append(s.log, e) && Completions(t, p) == Completions(s, p)
    requires forall o :: (IsRecording(t, o, p) <==> IsRecording(s, o, p)) && (IsRunning(t, o, p) ==> IsRunning(s, o, p))
    requires NeverExecuted([e], p.0, p.1) && (IsApprovalOf(e, p.0, p.1) ==> NeverExecuted(s.log, p.0, p.1))
    ensures Stage(t, p)
  {
    assert e in [e];
    LatestAfterAppend(s.log, e, p.0, p.1);
  }

  lemma ArrivingKeepsStage(s: System, owner: Owner, r: Request, p: Pair)
    requires Stage(s, p)
    ensures Stage(ArriveStep(s, owner, r), p)
  {
    var t := ArriveStep(s, owner, r);
    assert forall o :: (IsRecording(t, o, p) <==> IsRecording(s, o, p)) && (IsRunning(t, o, p) ==> IsRunning(s, o, p));
    StageOf(s, t, p);
  }

  lemma ApprovingStartsNothing(s: System, owner: Owner, p: Pair, o: Owner)
    ensures
      var t := ApproveStep(s, owner);
      (IsRecording(t, o, p) <==> IsRecording(s, o, p)) && (IsRunning(t, o, p) ==> IsRunning(s, o, p))
  {
  }

  lemma ApprovingKeepsStage(s: System, owner: Owner, p: Pair, sha: Digest)
    requires Tidy(s, p, sha) && OrderlyMove(s, Approve(owner), p, sha)
    ensures Stage(ApproveStep(s, owner), p)
  {
    var t := ApproveStep(s, owner);
    if t != s {
      var e := s.workers[owner].event;
      assert Fits(s.workers[owner], p, sha);
      assert t.log == Append(s.log, e) && t.executions == s.executions;
      forall o
        ensures (IsRecording(t, o, p) <==> IsRecording(s, o, p)) && (IsRunning(t, o, p) ==> IsRunning(s, o, p))
      {
        ApprovingStartsNothing(s, owner, p, o);
      }
      AppendingKeepsStage(s, t, e, p);
    }
  }

  lemma DecidingKeepsStage(s: System, e: Event, p: Pair)
    requires Stage(s, p) && NeverExecuted([e], p.0, p.1)
    requires IsApprovalOf(e, p.0, p.1) ==> NeverExecuted(s.log, p.0, p.1)
    ensures Stage(Next(s, Decide(e)), p)
  {
    var t := Next(s, Decide(e));
    assert forall o :: (IsRecording(t, o, p) <==> IsRecording(s, o, p)) && (IsRunning(t, o, p) ==> IsRunning(s, o, p));
    AppendingKeepsStage(s, t, e, p);
  }

  lemma CheckingKeepsStage(s: System, owner: Owner, p: Pair, sha: Digest)
    requires Tidy(s, p, sha)
    ensures Stage(CheckStep(s, owner), p)
  {
    var t := CheckStep(s, owner);
    assert forall o :: IsRecording(t, o, p) <==> IsRecording(s, o, p);
    if Passes(s, CheckConsent(owner), p) {
      if o :| IsRecording(s, o, p) {
        OneFlies(s, sha, o, owner);
      }
      assert Completions(s, p) == 0;
    } else {
      assert forall o :: IsRunning(t, o, p) ==> IsRunning(s, o, p);
      StageDependsOn(s, t, p);
    }
  }

  /** The first execution: nobody else of the pair is in flight. */
  lemma ExecutingStartsRecording(s: System, owner: Owner, p: Pair, sha: Digest)
    requires Tidy(s, p, sha) && IsRunning(s, owner, p)
    ensures Stage(ExecutorStep(s, owner, ExitsWith(0)), p)
  {
    EndingCommits(s, owner, ExitsWith(0), p);
    if o :| IsRecording(s, o, p) {
      assert Fits(s.workers[o], p, sha) && Fits(s.workers[owner], p, sha);
      OneFlies(s, sha, o, owner);
    }
    assert IsRecording(ExecutorStep(s, owner, ExitsWith(0)), owner, p);
  }

  lemma EndingLeavesOthers(s: System, owner: Owner, executor: Executor, p: Pair, o: Owner)
    requires !(executor == ExitsWith(0) && IsRunning(s, owner, p))
    ensures
      var t := ExecutorStep(s, owner, executor);
      (IsRecording(t, o, p) <==> IsRecording(s, o, p)) && (IsRunning(t, o, p) ==> IsRunning(s, o, p))
  {
  }

  lemma ExecutingKeepsStage(s: System, owner: Owner, executor: Executor, p: Pair, sha: Digest)
    requires Tidy(s, p, sha)
    ensures Stage(ExecutorStep(s, owner, executor), p)
  {
    var t := ExecutorStep(s, owner, executor);
    if executor == ExitsWith(0) && IsRunning(s, owner, p) {
      ExecutingStartsRecording(s, owner, p, sha);
    } else if t != s {
      EndingCommits(s, owner, executor, p);
      forall o
        ensures (IsRecording(t, o, p) <==> IsRecording(s, o, p)) && (IsRunning(t, o, p) ==> IsRunning(s, o, p))
      {
        EndingLeavesOthers(s, owner, executor, p, o);
      }
      StageOf(s, t, p);
    }
  }

  /** Recording its own execution stops the pair. */
  lemma RecordingStopsPair(s: System, owner: Owner, p: Pair, sha: Digest)
    requires Tidy(s, p, sha) && IsRecording(s, owner, p)
    ensures Stage(RecordStep(s, owner), p)
  {
    var t := RecordStep(s, owner);
    var w := s.workers[owner];
    assert Fits(w, p, sha);
    RecordedExecutionStops(s.log, w.phase.approval, w.request.now, [], sha, 0);
    forall o | o != owner
      ensures !IsRecording(t, o, p) && !IsRunning(t, o, p)
    {
      if IsRecording(s, o, p) || IsRunning(s, o, p) {
        assert Fits(s.workers[o], p, sha);
        OneFlies(s, sha, o, owner);
      }
    }
    assert !IsRecording(t, owner, p) && !IsRunning(t, owner, p);
  }

  lemma RecordingKeepsStage(s: System, owner: Owner, p: Pair, sha: Digest)
    requires Tidy(s, p, sha)
    ensures Stage(RecordStep(s, owner), p)
  {
    var t := RecordStep(s, owner);
    if IsRecording(s, owner, p) {
      RecordingStopsPair(s, owner, p, sha);
    } else if t != s {
      var w := s.workers[owner];
      assert Fits(w, p, sha);
      LatestAfterAppend(s.log, ExecutedEvent(w.phase.approval, w.request.now), p.0, p.1);
      assert forall o :: (IsRecording(t, o, p) <==> IsRecording(s, o, p)) && (IsRunning(t, o, p) <==> IsRunning(s, o, p));
      StageDependsOn(s, t, p);
    }
  }

  lemma WorkerStaysFit(s: System, m: Move, p: Pair, sha: Digest, o: Owner)
    requires OrderlyMove(s, m, p, sha) && o in Next(s, m).workers
    requires o in s.workers ==> Fits(s.workers[o], p, sha)
    ensures Fits(Next(s, m).workers[o], p, sha)
  {
    if o in s.workers {
      NextFollows(s, m, o);
    } else {
      NewcomersArrive(s, m, o);
    }
  }

  lemma WorkersStayFit(s: System, m: Move, p: Pair, sha: Digest)
    requires WorkersFit(s, p, sha) && OrderlyMove(s, m, p, sha)
    ensures WorkersFit(Next(s, m), p, sha)
  {
    forall o | o in Next(s, m).workers
      ensures Fits(Next(s, m).workers[o], p, sha)
    {
      WorkerStaysFit(s, m, p, sha, o);
    }
  }

  predicate Bystanding(m: Move)
  {
    m.ReadStatus? || m.TakeLease? || m.Heartbeat? || m.Fails? || m.Escapes? || m.Publish? || m.Close? || m.Crash?
  }

  lemma BystandersStay(s: System, m: Move, p: Pair, sha: Digest, o: Owner)
    requires Bystanding(m) && OrderlyMove(s, m, p, sha)
    ensures (IsRecording(Next(s, m), o, p) <==> IsRecording(s, o, p)) && (IsRunning(Next(s, m), o, p) ==> IsRunning(s, o, p))
  {
  }

  lemma BystandersLeaveLog(s: System, m: Move)
    requires Bystanding(m)
    ensures Next(s, m).log == s.log && Next(s, m).executions == s.executions
  {
  }

  /** The remaining moves neither execute nor record, nor touch the log. */
  lemma OtherMovesKeepStage(s: System, m: Move, p: Pair, sha: Digest)
    requires Stage(s, p) && Bystanding(m) && OrderlyMove(s, m, p, sha)
    ensures Stage(Next(s, m), p)
  {
    var t := Next(s, m);
    forall o
      ensures (IsRecording(t, o, p) <==> IsRecording(s, o, p)) && (IsRunning(t, o, p) ==> IsRunning(s, o, p))
    {
      BystandersStay(s, m, p, sha, o);
    }
    BystandersLeaveLog(s, m);
    StageOf(s, t, p);
  }

  lemma NextStaysTidy(s: System, m: Move, p: Pair, sha: Digest)
    requires Tidy(s, p, sha) && OrderlyMove(s, m, p, sha)
    ensures Tidy(Next(s, m), p, sha)
  {
    NextKeepsInvariant(s, m);
    FlyersKeepRows(s, m, sha);
    WorkersStayFit(s, m, p, sha);
    match m
    case Arrive(owner, r) => ArrivingKeepsStage(s, owner, r, p);
    case Approve(owner) => ApprovingKeepsStage(s, owner, p, sha);
    case CheckConsent(owner) => CheckingKeepsStage(s, owner, p, sha);
    case ExecutorEnds(owner, executor) => ExecutingKeepsStage(s, owner, executor, p, sha);
    case Record(owner) => RecordingKeepsStage(s, owner, p, sha);
    case Decide(e) => DecidingKeepsStage(s, e, p);
    case _ => OtherMovesKeepStage(s, m, p, sha);
  }

  lemma {:induction false} RunStaysTidy(s: System, moves: seq<Move>, p: Pair, sha: Digest)
    requires Tidy(s, p, sha) && Orderly(s, moves, p, sha)
    ensures Tidy(Run(s, moves), p, sha)
    decreases |moves|
  {
    if moves != [] {
      NextStaysTidy(s, moves[0], p, sha);
      RunStaysTidy(Next(s, moves[0]), moves[1..], p, sha);
    }
  }

  /** What lease, consent check and log achieve together: from any log without an execution of
      the pair, any status files and any leftover lease rows, the executor completes the pair
      at most once, as long as no lease runs out under a worker in flight, no worker is
      interrupted between executing and recording, and nobody approves the pair after an
      execution of it was recorded. */
  lemma ExecutorCompletesAtMostOnce(log: Log, status: map<Digest, Status>, rows: Rows, moves: seq<Move>, p: Pair, sha: Digest)
    requires NeverExecuted(log, p.0, p.1)
    requires Orderly(Start(log, status, rows), moves, p, sha)
    ensures Completions(Run(Start(log, status, rows), moves), p) <= 1
    ensures Completions(Run(Start(log, status, rows), moves), p) == 1
            && (forall o :: !IsRecording(Run(Start(log, status, rows), moves), o, p)) ==>
              Stopped(Run(Start(log, status, rows), moves).log, p.0, p.1)
  {
    RunStaysTidy(Start(log, status, rows), moves, p, sha);
  }

  // ---------------------------------------------------------------- when completion is final

  predicate Completed(s: System, sha: Digest) { sha in s.status && s.status[sha].state == "completed" }

  /** The worker can still publish something else than `completed` for the hash: it is past the
      status gate with a lease to take, or it holds the hash's row without having lost it. */
  predicate CanSpoil(s: System, owner: Owner, sha: Digest)
  {
    && owner in s.workers
    && var w := s.workers[owner];
       && Sha(w) == sha
       && if w.phase.Cleared? then MIN_LEASE_SECONDS <= Seconds(w)
          else if w.InFlight() then !w.phase.lost && OwnsRow(s, owner)
          else w.phase.Ran? && w.phase.code != 0 && !w.phase.lost && OwnsRow(s, owner)
  }

  ghost predicate Settled(s: System, sha: Digest)
  {
    Completed(s, sha) && forall o :: !CanSpoil(s, o, sha)
  }

  lemma NextKeepsCompleted(s: System, m: Move, sha: Digest)
    requires Settled(s, sha)
    ensures Completed(Next(s, m), sha)
  {
    if m.Publish? && Writes(s, m.owner, m.beat) && Sha(s.workers[m.owner]) == sha {
      assert !CanSpoil(s, m.owner, sha);
    }
  }

  /** The lease operation a move performs, if any. */
  function OpOf(s: System, m: Move): Option<Op>
  {
    match m
    case TakeLease(o, at) =>
      if o in s.workers && s.workers[o].phase.Cleared? then Some(Acquire(Sha(s.workers[o]), o, Seconds(s.workers[o]), at)) else None
    case Heartbeat(o, beat) =>
      if o in s.workers && s.workers[o].MayWrite() && !s.workers[o].phase.lost && beat.Some?
         && s.workers[o].phase.grant < |s.ledger.issued|
         && Renewable(s.ledger.rows, s.ledger.issued[s.workers[o].phase.grant], beat.value)
      then Some(Renew(s.ledger.issued[s.workers[o].phase.grant], Seconds(s.workers[o]), beat.value)) else None
    case Publish(o, beat) =>
      if Writes(s, o, beat)
      then Some(Renew(s.ledger.issued[s.workers[o].phase.grant], Seconds(s.workers[o]), beat.value)) else None
    case Close(o) =>
      if o in s.workers && s.workers[o].phase.Closing? && s.workers[o].phase.grant < |s.ledger.issued|
      then Some(Release(s.ledger.issued[s.workers[o].phase.grant])) else None
    case _ => None
  }

  lemma LedgerFollows(s: System, m: Move)
    ensures Next(s, m).ledger == if OpOf(s, m).Some? then Apply(s.ledger, OpOf(s, m).value) else s.ledger
  {
  }

  lemma GrantStays(s: System, m: Move, o: Owner)
    requires o in s.workers && s.workers[o].HasGrant() && o in Next(s, m).workers && Next(s, m).workers[o].HasGrant()
    ensures Next(s, m).workers[o].phase.grant == s.workers[o].phase.grant
    ensures OpOf(s, m).Some? && OpOf(s, m).value.Acquire? ==> OpOf(s, m).value.owner != o
  {
    NextFollows(s, m, o);
  }

  /** A row that is not its own never becomes a worker's again. */
  lemma LostRowStaysLost(s: System, m: Move, o: Owner)
    requires Invariant(s) && o in s.workers && s.workers[o].HasGrant() && !OwnsRow(s, o)
    requires o in Next(s, m).workers && Next(s, m).workers[o].HasGrant()
    ensures !OwnsRow(Next(s, m), o)
  {
    assert HoldsGrant(s.ledger.issued, s.writes, o, s.workers[o]);
    var g := s.ledger.issued[s.workers[o].phase.grant];
    LedgerFollows(s, m);
    GrantStays(s, m, o);
    if OwnsRow(Next(s, m), o) && OpOf(s, m).Some? {
      MatchNeedsAcquisition(s.ledger, OpOf(s, m).value, g);
    }
  }

  /** Reading a completed status ends the attempt. */
  lemma CompletionStopsReaders(s: System, m: Move, o: Owner)
    requires o in s.workers && AtTheGate(s.workers[o]) && Completed(s, Sha(s.workers[o]))
    requires o in Next(s, m).workers
    ensures AtTheGate(Next(s, m).workers[o])
  {
  }

  /** Past the gate nobody regains a lost lease or turns success into failure. */
  lemma NobodyBecomesSpoiler(s: System, m: Move, sha: Digest, o: Owner)
    requires Invariant(s) && Completed(s, sha) && CanSpoil(Next(s, m), o, sha)
    ensures CanSpoil(s, o, sha)
  {
    if o !in s.workers {
      NewcomersArrive(s, m, o);
    } else {
      NextFollows(s, m, o);
      if AtTheGate(s.workers[o]) {
        CompletionStopsReaders(s, m, o);
      } else if s.workers[o].HasGrant() && !OwnsRow(s, o) {
        LostRowStaysLost(s, m, o);
      }
    }
  }

  lemma {:induction false} SettledStaysCompleted(s: System, moves: seq<Move>, sha: Digest)
    requires Invariant(s) && Settled(s, sha)
    ensures Completed(Run(s, moves), sha)
    decreases |moves|
  {
    if moves != [] {
      var t := Next(s, moves[0]);
      NextKeepsInvariant(s, moves[0]);
      NextKeepsCompleted(s, moves[0], sha);
      forall o
        ensures !CanSpoil(t, o, sha)
      {
        if CanSpoil(t, o, sha) {
          NobodyBecomesSpoiler(s, moves[0], sha, o);
        }
      }
      SettledStaysCompleted(t, moves[1..], sha);
    }
  }

  lemma RanSpoils(s: System, owner: Owner, sha: Digest) returns (moves: seq<Move>)
    requires Invariant(s) && CanSpoil(s, owner, sha) && s.workers[owner].phase.Ran?
    ensures !Completed(Run(s, moves), sha)
  {
    assert HoldsGrant(s.ledger.issued, s.writes, owner, s.workers[owner]);
    var m := Publish(owner, Some(s.ledger.rows[sha].expires));
    moves := [m];
    assert moves[1..] == [];
    assert Run(s, moves) == Next(s, m);
  }

  lemma FlyerSpoils(s: System, owner: Owner, sha: Digest) returns (moves: seq<Move>)
    requires Invariant(s) && CanSpoil(s, owner, sha) && s.workers[owner].InFlight()
    ensures !Completed(Run(s, moves), sha)
  {
    var m := Move.Fails(owner);
    NextKeepsInvariant(s, m);
    var rest := RanSpoils(Next(s, m), owner, sha);
    moves := [m] + rest;
    assert moves[1..] == rest;
  }

  lemma SpoilerSpoils(s: System, owner: Owner, sha: Digest) returns (moves: seq<Move>)
    requires CanSpoil(s, owner, sha) && Invariant(s)
    ensures !Completed(Run(s, moves), sha)
  {
    if s.workers[owner].phase.Ran? {
      moves := RanSpoils(s, owner, sha);
    } else if s.workers[owner].InFlight() {
      moves := FlyerSpoils(s, owner, sha);
    } else {
      var m := TakeLease(owner, if sha in s.ledger.rows then s.ledger.rows[sha].expires else 0);
      NextKeepsInvariant(s, m);
      var rest := FlyerSpoils(Next(s, m), owner, sha);
      moves := [m] + rest;
      assert moves[1..] == rest;
    }
  }

  /** In any reachable state with a hash's status `completed`: it stays `completed` in every
      continuation exactly when no worker of the hash that passed the status gate earlier can
      still take its lease, or still holds its row without having finished successfully. */
  lemma CompletionIsFinalIff(log: Log, status: map<Digest, Status>, rows: Rows, before: seq<Move>, sha: Digest)
    requires Completed(Run(Start(log, status, rows), before), sha)
    ensures
      var s := Run(Start(log, status, rows), before);
      (forall moves :: Completed(Run(s, moves), sha)) <==> (forall o :: !CanSpoil(s, o, sha))
  {
    RunKeepsInvariant(Start(log, status, rows), before);
    var s := Run(Start(log, status, rows), before);
    if o :| CanSpoil(s, o, sha) {
      var moves := SpoilerSpoils(s, o, sha);
    } else {
      forall moves
        ensures Completed(Run(s, moves), sha)
      {
        SettledStaysCompleted(s, moves, sha);
      }
    }
  }

  // ---------------------------------------------------------------- a human stop

  lemma AdmissionInTwoSteps(log: Log, r: Request)
    requires EarlyGate(r).None?
    ensures !WillApprove(log, r) ==> Admit(log, r).log == log
    ensures WillApprove(log, r) ==>
              Admit(log, r) == if Conflicts(log, OwnApproval(r)) then Stop(Failed, log)
                               else Confirm(OwnApproval(r), Append(log, OwnApproval(r)), r)
  {
  }

  /** Undisturbed, reading and approving amount to the authorization of a whole attempt. */
  lemma AuthorizingInTwoSteps(s: System, owner: Owner, r: Request)
    requires Fresh(s, owner) && EarlyGate(r).None?
    ensures
      var t := ArriveStep(s, owner, r);
      var u := if WillApprove(s.log, r) then ApproveStep(t, owner) else t;
      u.log == Admit(s.log, r).log && (owner in u.workers <==> Admit(s.log, r).Pass?)
  {
    AdmissionInTwoSteps(s.log, r);
    if WillApprove(s.log, r) {
      var t := s.(workers := s.workers[owner := Worker(r, OwnApproval(r), Authorizing)]);
      assert ArriveStep(s, owner, r) == t;
      assert ApproveStep(t, owner).log == Append(s.log, OwnApproval(r));
    }
  }

  /** The worker read the log before the stop and is about to approve the pair. */
  predicate CanOverride(s: System, owner: Owner, p: Pair)
  {
    && owner in s.workers && s.workers[owner].phase.Authorizing? && s.workers[owner].request.construction.Some?
    && IsApprovalOf(s.workers[owner].event, p.0, p.1)
    && Stored(s.log, s.workers[owner].event.id).None?
  }

  predicate NobodyApproves(moves: seq<Move>, p: Pair)
  {
    forall i | 0 <= i < |moves| && moves[i].Decide? :: !IsApprovalOf(moves[i].event, p.0, p.1)
  }

  lemma AppendKeepsStop(log: Log, e: Event, p: Pair)
    requires Stopped(log, p.0, p.1)
    requires IsApprovalOf(e, p.0, p.1) ==> Stored(log, e.id).Some?
    ensures Stopped(Append(log, e), p.0, p.1)
  {
    LatestAfterAppend(log, e, p.0, p.1);
  }

  lemma NextKeepsStop(s: System, m: Move, p: Pair)
    requires Stopped(s.log, p.0, p.1) && NobodyApproves([m], p) && forall o :: !CanOverride(s, o, p)
    ensures Stopped(Next(s, m).log, p.0, p.1)
  {
    match m
    case Decide(e) =>
      assert [m][0] == m;
      AppendKeepsStop(s.log, e, p);
    case Approve(o) =>
      assert !CanOverride(s, o, p);
      if ApproveStep(s, o) != s {
        AppendKeepsStop(s.log, s.workers[o].event, p);
      }
    case Record(o) =>
      if RecordStep(s, o) != s {
        AppendKeepsStop(s.log, ExecutedEvent(s.workers[o].phase.approval, s.workers[o].request.now), p);
      }
    case _ => LogStays(s, m);
  }

  lemma LogStays(s: System, m: Move)
    requires !m.Decide? && !m.Approve? && !m.Record?
    ensures Next(s, m).log == s.log
  {
  }

  lemma LogGrows(s: System, m: Move)
    ensures s.log <= Next(s, m).log
  {
    if !m.Decide? && !m.Approve? && !m.Record? {
      LogStays(s, m);
    }
  }

  lemma {:induction false} StoredStays(log: Log, more: Log, id: Identifier)
    requires log <= more && Stored(log, id).Some?
    ensures Stored(more, id).Some?
  {
    assert Stored(log, id).value in more;
  }

  /** A stopped pair brings no new policy to the point of approving it. */
  lemma NobodyComesToOverride(s: System, m: Move, p: Pair, o: Owner)
    requires Stopped(s.log, p.0, p.1) && !CanOverride(s, o, p)
    ensures !CanOverride(Next(s, m), o, p)
  {
    if CanOverride(Next(s, m), o, p) {
      if o in s.workers {
        NextFollows(s, m, o);
        LogGrows(s, m);
        if Stored(s.log, s.workers[o].event.id).Some? {
          StoredStays(s.log, Next(s, m).log, s.workers[o].event.id);
        }
      } else {
        NewcomersArrive(s, m, o);
      }
    }
  }

  lemma {:induction false} StopSurvives(s: System, moves: seq<Move>, p: Pair)
    requires Stopped(s.log, p.0, p.1) && NobodyApproves(moves, p) && forall o :: !CanOverride(s, o, p)
    ensures Stopped(Run(s, moves).log, p.0, p.1)
    decreases |moves|
  {
    if moves != [] {
      NextKeepsStop(s, moves[0], p);
      forall o
        ensures !CanOverride(Next(s, moves[0]), o, p)
      {
        NobodyComesToOverride(s, moves[0], p, o);
      }
      StopSurvives(Next(s, moves[0]), moves[1..], p);
    }
  }

  lemma StopRefusesConsent(s: System, m: Move, p: Pair)
    requires Stopped(s.log, p.0, p.1)
    ensures !Passes(s, m, p)
  {
  }

  /** Automatic mode does not override a human stop, in any continuation in which nobody else
      approves the pair, exactly when no worker had already read the log before the stop and
      is about to approve.  Then no consent check of the pair is passed any more: no further
      executor starts. */
  lemma HumanStopIsFinalIff(s: System, p: Pair)
    requires Stopped(s.log, p.0, p.1)
    ensures (forall moves | NobodyApproves(moves, p) :: Stopped(Run(s, moves).log, p.0, p.1))
       <==> (forall o :: !CanOverride(s, o, p))
    ensures (forall o :: !CanOverride(s, o, p)) ==>
              forall moves, m | NobodyApproves(moves, p) :: !Passes(Run(s, moves), m, p)
  {
    if o :| CanOverride(s, o, p) {
      var moves := [Approve(o)];
      assert moves[1..] == [] && NobodyApproves(moves, p);
      assert Run(s, moves) == ApproveStep(s, o);
      LatestAfterAppend(s.log, s.workers[o].event, p.0, p.1);
    } else {
      forall moves | NobodyApproves(moves, p)
        ensures Stopped(Run(s, moves).log, p.0, p.1) && forall m :: !Passes(Run(s, moves), m, p)
      {
        StopSurvives(s, moves, p);
        forall m
          ensures !Passes(Run(s, moves), m, p)
        {
          StopRefusesConsent(Run(s, moves), m, p);
        }
      }
    }
  }

  // ---------------------------------------------------------------- two runs

  // Two workers of one approved pair pass the status gate.  In the first run the lease of `b`
  // runs out while its executor works, and `a` executes as well.  In the second, `b` finishes
  // and publishes `completed`; then `a` is refused and publishes `blocked` over it.

  ghost predicate Reaches(s: System, t: System) { exists moves :: Run(s, moves) == t }

  lemma {:induction false} RunJoins(s: System, a: seq<Move>, b: seq<Move>)
    ensures Run(s, a + b) == Run(Run(s, a), b)
    decreases |a|
  {
    if a == [] {
      assert a + b == b;
    } else {
      assert (a + b)[0] == a[0] && (a + b)[1..] == a[1..] + b;
      var t := Next(s, a[0]);
      RunJoins(t, a[1..], b);
      assert Run(s, a + b) == Run(t, a[1..] + b);
    }
  }

  lemma ThenMove(s: System, t: System, m: Move)
    requires Reaches(s, t)
    ensures Reaches(s, Next(t, m))
  {
    var moves :| Run(s, moves) == t;
    RunJoins(s, moves, [m]);
    assert [m][1..] == [];
    assert Run(t, [m]) == Next(t, m);
  }

  const CONSENT := Event(Identifier(Approved, "d", "c", 0, "manager"), "d", "c", "h", Approved, "manager", 0, Some(10), None)

  function At(owner: Owner, phase: Phase): Worker
  {
    Worker(Request(Manual, Some(Construction("c", Blank, "h")), Some(Briefing("d", "")), 0, None, DirectLane,
                   None, None, Some(15), owner, 0, [], Some(0), Exits(0, None, [])), CONSENT, phase)
  }

  lemma Approaches(o: System, s: System, owner: Owner) returns (t: System)
    requires Reaches(o, s) && s.log == [CONSENT] && s.status == map[] && Fresh(s, owner)
    ensures Reaches(o, t) && t == s.(workers := s.workers[owner := At(owner, Cleared)])
  {
    assert Latest(s.log, "d", "c") == Some(CONSENT);
    ThenMove(o, s, Arrive(owner, At(owner, Admitted).request));
    t := Next(s, Arrive(owner, At(owner, Admitted).request));
    ThenMove(o, t, ReadStatus(owner));
    t := Next(t, ReadStatus(owner));
  }

  lemma Boards(o: System, s: System, owner: Owner, at: int) returns (t: System)
    requires Reaches(o, s) && owner in s.workers && s.workers[owner] == At(owner, Cleared)
    requires s.log == [CONSENT] && !Held(s.ledger.rows, "h", owner, at)
    ensures Reaches(o, t)
    ensures t == s.(workers := s.workers[owner := At(owner, Running(|s.ledger.issued|, false, CONSENT))],
                    ledger := Apply(s.ledger, Acquire("h", owner, 15, at)))
  {
    assert Latest(s.log, "d", "c") == Some(CONSENT);
    ThenMove(o, s, TakeLease(owner, at));
    t := Next(s, TakeLease(owner, at));
    ThenMove(o, t, CheckConsent(owner));
    t := Next(t, CheckConsent(owner));
  }

  lemma Executes(o: System, s: System, owner: Owner) returns (t: System)
    requires Reaches(o, s) && owner in s.workers && s.workers[owner].phase.Running?
    ensures Reaches(o, t)
    ensures t == Enter(s, owner, Recording(s.workers[owner].phase.grant, s.workers[owner].phase.lost, s.workers[owner].phase.approval))
                 .(executions := s.executions + [PairOf(s.workers[owner].request)])
  {
    ThenMove(o, s, ExecutorEnds(owner, ExitsWith(0)));
    t := Next(s, ExecutorEnds(owner, ExitsWith(0)));
  }

  /** Both workers past the status gate. */
  lemma BothClear() returns (s: System)
    ensures Reaches(Start([CONSENT], map[], map[]), s) && "a" != "b"
    ensures s == Start([CONSENT], map[], map[]).(workers := map["a" := At("a", Cleared), "b" := At("b", Cleared)])
  {
    assert "a"[0] != "b"[0];
    s := Start([CONSENT], map[], map[]);
    assert Run(s, []) == s;
    s := Approaches(s, s, "a");
    s := Approaches(Start([CONSENT], map[], map[]), s, "b");
  }

  /** An expired lease lets two executors run: the pair is executed twice. */
  lemma TakeoverExecutesTwice() returns (t: System)
    ensures Reaches(Start([CONSENT], map[], map[]), t) && t.executions == [("d", "c"), ("d", "c")]
  {
    var o := Start([CONSENT], map[], map[]);
    t := BothClear();
    t := Boards(o, t, "b", 0);
    t := Boards(o, t, "a", 15 * SECOND);
    t := Executes(o, t, "b");
    t := Executes(o, t, "a");
  }

  /** Recording, publishing and leaving after the executor returned 0. */
  lemma Finishes(o: System, s: System, owner: Owner) returns (t: System)
    requires Reaches(o, s) && owner in s.workers && s.workers[owner] == At(owner, Recording(0, false, CONSENT))
    requires s.log == [CONSENT] && s.ledger.issued == [Grant("h", owner, 1, 15 * SECOND)]
    requires Renewable(s.ledger.rows, s.ledger.issued[0], 0)
    ensures Reaches(o, t) && t.log == [CONSENT, ExecutedEvent(CONSENT, 0)] && Completed(t, "h")
    ensures t.workers == s.workers - {owner} && "h" !in t.ledger.rows && t.executions == s.executions
  {
    assert !Conflicts(s.log, ExecutedEvent(CONSENT, 0)) by {
      assert s.log[1..] == [];
    }
    ThenMove(o, s, Record(owner));
    var s1 := Next(s, Record(owner));
    assert s1 == Enter(s, owner, Ran(0, false, 0)).(log := [CONSENT, ExecutedEvent(CONSENT, 0)]);
    t := PublishesAndLeaves(o, s1, owner);
  }

  lemma PublishesAndLeaves(o: System, s: System, owner: Owner) returns (t: System)
    requires Reaches(o, s) && owner in s.workers && s.workers[owner] == At(owner, Ran(0, false, 0))
    requires s.ledger.issued == [Grant("h", owner, 1, 15 * SECOND)] && Renewable(s.ledger.rows, s.ledger.issued[0], 0)
    ensures Reaches(o, t) && t.log == s.log && Completed(t, "h")
    ensures t.workers == s.workers - {owner} && "h" !in t.ledger.rows && t.executions == s.executions
  {
    ThenMove(o, s, Publish(owner, Some(0)));
    t := Next(s, Publish(owner, Some(0)));
    assert t.workers[owner] == At(owner, Closing(0));
    ThenMove(o, t, Close(owner));
    t := Next(t, Close(owner));
  }

  /** The stale worker: refused by the consent check, it publishes `blocked`. */
  lemma Overwrites(s: System, owner: Owner) returns (t: System)
    requires owner in s.workers && s.workers[owner] == At(owner, Cleared) && "h" !in s.ledger.rows
    requires s.log == [CONSENT, ExecutedEvent(CONSENT, 0)]
    ensures Reaches(s, t) && "h" in t.status && t.status["h"].state == "blocked" && t.executions == s.executions
  {
    assert Run(s, []) == s;
    assert Latest(s.log, "d", "c") == Some(ExecutedEvent(CONSENT, 0));
    ThenMove(s, s, TakeLease(owner, 0));
    var s1 := Next(s, TakeLease(owner, 0));
    ThenMove(s, s1, CheckConsent(owner));
    var s2 := Next(s1, CheckConsent(owner));
    assert s2.workers[owner] == At(owner, Ran(|s.ledger.issued|, false, 4)) && s2.ledger == s1.ledger;
    ThenMove(s, s2, Publish(owner, Some(0)));
    t := Next(s2, Publish(owner, Some(0)));
  }

  /** Completion is not final under interleaving, though the pair was executed only once. */
  lemma StaleReaderOverwritesCompletion() returns (done: System, after: System)
    ensures Reaches(Start([CONSENT], map[], map[]), done) && Completed(done, "h")
    ensures Reaches(done, after) && "h" in after.status && after.status["h"].state == "blocked"
    ensures done.executions == after.executions == [("d", "c")]
  {
    var o := Start([CONSENT], map[], map[]);
    var s := BothClear();
    s := Boards(o, s, "b", 0);
    s := Executes(o, s, "b");
    done := Finishes(o, s, "b");
    after := Overwrites(done, "a");
  }

  const DECLINE := Event(Identifier(Declined, "d", "c", 0, "manager"), "d", "c", "h", Declined, "manager", 0, None, None)

  function Policy(): Request { At("a", Admitted).request.(mode := Automatic, ttl := Some(10)) }

  lemma ReadsThenDeclined() returns (declined: System)
    ensures Reaches(Start([], map[], map[]), declined)
    ensures declined == Start([DECLINE], map[], map[]).(workers := map["a" := Worker(Policy(), OwnApproval(Policy()), Authorizing)])
  {
    var o := Start([], map[], map[]);
    assert Run(o, []) == o;
    ThenMove(o, o, Arrive("a", Policy()));
    var s := Next(o, Arrive("a", Policy()));
    assert s == o.(workers := map["a" := Worker(Policy(), OwnApproval(Policy()), Authorizing)]);
    ThenMove(o, s, Decide(DECLINE));
    declined := Next(s, Decide(DECLINE));
  }

  /** A decline between the policy's reading and its approval is overridden. */
  lemma DeclineIsOverridden() returns (declined: System, after: seq<Move>)
    ensures Reaches(Start([], map[], map[]), declined) && Stopped(declined.log, "d", "c")
    ensures NobodyApproves(after, ("d", "c")) && !Stopped(Run(declined, after).log, "d", "c")
  {
    declined := ReadsThenDeclined();
    LatestAfterAppend([], DECLINE, "d", "c");
    assert [] + [DECLINE] == [DECLINE] && [DECLINE][1..] == [];
    assert Stored(declined.log, OwnApproval(Policy()).id).None?;
    assert CanOverride(declined, "a", ("d", "c"));
    HumanStopIsFinalIff(declined, ("d", "c"));
    after :| NobodyApproves(after, ("d", "c")) && !Stopped(Run(declined, after).log, "d", "c");
  }
}
