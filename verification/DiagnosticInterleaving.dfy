/**
  Primers and runners of any releases sharing the single diagnostic slot, in every
  interleaving, with processes dying at any moment.

  Steps taken as atomic, although the program holds no lock over them: one store operation
  (a reading and a writing); check-owner-then-close; lease acquisition; release.
*/
module DiagnosticInterleaving {
  import opened Options
  import opened DiagnosticCoordination

  datatype Program = Runner(release: string, force: bool) | Primer(release: string)

  datatype Phase =
    | Observing                      // both: read the slot, recover an ownerless request
    | Requesting | Claiming          // runner
    | Owning(claimed: Ticket) | Working(claimed: Ticket) | Releasing(claimed: Ticket, succeeded: bool)
    | Rereading                      // primer: after recovering
    | Superseding(stale: string)     // primer: about to claim a stale pending request
    | Closing(claimed: Ticket)       // primer: about to close what it claimed
    | Rechecking | Handing
  {
    predicate HasClaim() { Owning? || Working? || Releasing? || Closing? }
  }

  datatype Proc = Proc(program: Program, phase: Phase)

  /** The two files and the processes, with what only the proofs look at: identifiers ever
      used, who claimed and who closed each request with which verdict, the requests that were
      replaced in the slot, and how each process last left its program. */
  datatype System = System(
    slot: Slot,
    lease: LeaseFile,
    alive: set<Pid>,
    procs: map<Pid, Proc>,
    ids: set<string>,
    claimer: map<string, Pid>,
    closer: map<string, (Pid, bool)>,
    replaced: seq<Ticket>,
    exits: map<Pid, Exit>)

  /** What a step may find outside: a fresh identifier, the work's result, a removable file,
      and whether the guarded section was left by an exception. */
  datatype Choice = Choice(freshId: string, cycle: string, snapshot: string, succeeded: bool, removable: bool, escapes: bool)

  datatype Move =
    | Spawn(pid: Pid, program: Program)
    | Step(pid: Pid, choice: Choice)
    | Progress(pid: Pid, cycle: string)
    | Die(pid: Pid)

  // ---------------------------------------------------------------- steps

  function Me(p: Program): string { Requester(p.release) }

  function Leave(s: System, pid: Pid, exit: Exit): System { s.(procs := s.procs - {pid}, exits := s.exits[pid := exit]) }

  function Go(s: System, pid: Pid, phase: Phase): System
    requires pid in s.procs
  {
    s.(procs := s.procs[pid := s.procs[pid].(phase := phase)])
  }

  function CloseSlot(s: System, pid: Pid, succeeded: bool, cycle: string, snapshot: string): System
    requires s.slot.Some?
  {
    s.(slot := Some(Finished(s.slot.value, succeeded, cycle, snapshot)),
       closer := s.closer[s.slot.value.id := (pid, succeeded)])
  }

  function CreateRequest(s: System, me: string, freshId: string): System
  {
    s.(slot := Some(NewTicket(freshId, me)), ids := s.ids + {freshId},
       replaced := if s.slot.Some? then s.replaced + [s.slot.value] else s.replaced)
  }

  function ClaimSlot(s: System, pid: Pid): System
    requires s.slot.Some?
  {
    s.(slot := Some(Claimed(s.slot.value)), claimer := s.claimer[s.slot.value.id := pid])
  }

  predicate Pends(slot: Slot) { slot.Some? && slot.value.state.Pending? }

  predicate Runs(slot: Slot) { slot.Some? && slot.value.state.InProgress? }

  function Observe(s: System, pid: Pid): System
    requires pid in s.procs
  {
    var p := s.procs[pid].program;
    if Runs(s.slot) then
      if (p.Primer? && s.slot.value.requester == Me(p)) || ActiveOwner(s.lease, s.alive, s.slot.value.id)
      then Leave(s, pid, Code(if p.Primer? then 0 else 3))
      else
        Go(CloseSlot(s, pid, false, s.slot.value.cycle, s.slot.value.snapshot), pid,
           if p.Primer? then Rereading else Requesting)
    else if p.Primer? then Decide(s, pid)
    else if !p.force && s.slot.Some? && s.slot.value.requester == Me(p) && s.slot.value.Terminal()
    then Leave(s, pid, Code(0))
    else Go(s, pid, Requesting)
  }

  /** The primer's choice on the request it has read. */
  function Decide(s: System, pid: Pid): System
    requires pid in s.procs
  {
    var me := Me(s.procs[pid].program);
    if Pends(s.slot) then
      if s.slot.value.requester == me then Leave(s, pid, Code(0)) else Go(s, pid, Superseding(s.slot.value.id))
    else Recheck(s, pid)
  }

  function Recheck(s: System, pid: Pid): System
    requires pid in s.procs
  {
    if s.slot.Some? && s.slot.value.requester == Me(s.procs[pid].program) && s.slot.value.Terminal()
    then Leave(s, pid, Code(0)) else Go(s, pid, Handing)
  }

  function RequestStep(s: System, pid: Pid, c: Choice): System
    requires pid in s.procs
  {
    var p := s.procs[pid].program;
    if Busy(s.slot) then
      if p.Runner? then if s.slot.value.requester == Me(p) then Go(s, pid, Claiming) else Leave(s, pid, Code(3))
      else Leave(s, pid, if s.slot.value.requester == Me(p) then Code(0) else Raised)
    else if c.freshId in s.ids then s
    else if p.Runner? then Go(CreateRequest(s, Me(p), c.freshId), pid, Claiming)
    else Leave(CreateRequest(s, Me(p), c.freshId), pid, Code(0))
  }

  function ClaimStep(s: System, pid: Pid): System
    requires pid in s.procs
  {
    if !Pends(s.slot) then Leave(s, pid, if s.procs[pid].phase.Superseding? then Raised else Code(3))
    else
      var t := ClaimSlot(s, pid);
      var phase := s.procs[pid].phase;
      if phase.Superseding? then
        if phase.stale == s.slot.value.id then Go(t, pid, Closing(t.slot.value)) else Leave(t, pid, Raised)
      else Go(t, pid, Owning(t.slot.value))
  }

  function OwnStep(s: System, pid: Pid, c: Choice): System
    requires pid in s.procs && s.procs[pid].phase.Owning?
  {
    var t := s.procs[pid].phase.claimed;
    if Acquirable(s.lease, s.alive, c.removable)
    then Go(s.(lease := Lease(t.id, pid)), pid, Working(t))
    else Leave(s, pid, Code(3))
  }

  /** Closing one's own claim; a rejected close is an exception that leaves the program. */
  function FinishStep(s: System, pid: Pid, c: Choice): System
    requires pid in s.procs && (s.procs[pid].phase.Working? || s.procs[pid].phase.Closing?)
  {
    var phase := s.procs[pid].phase;
    if phase.Working? then
      if Finishable(s.slot, phase.claimed, c.cycle)
      then Go(CloseSlot(s, pid, c.succeeded, c.cycle, c.snapshot), pid, Releasing(phase.claimed, c.succeeded))
      else Leave(s, pid, Raised)
    else
      if Finishable(s.slot, phase.claimed, "")
      then Go(CloseSlot(s, pid, false, "", ""), pid, Rechecking)
      else Leave(s, pid, Raised)
  }

  function ReleaseStep(s: System, pid: Pid, c: Choice): System
    requires pid in s.procs && s.procs[pid].phase.Releasing?
  {
    var phase := s.procs[pid].phase;
    Leave(if s.lease == Lease(phase.claimed.id, pid) then s.(lease := Absent) else s, pid,
          if c.escapes then Raised else Code(if phase.succeeded then 0 else 3))
  }

  function StepOf(s: System, pid: Pid, c: Choice): System
    requires pid in s.procs
  {
    match s.procs[pid].phase
    case Observing => Observe(s, pid)
    case Requesting => RequestStep(s, pid, c)
    case Claiming => ClaimStep(s, pid)
    case Owning(_) => OwnStep(s, pid, c)
    case Working(_) => FinishStep(s, pid, c)
    case Releasing(_, _) => ReleaseStep(s, pid, c)
    case Rereading => Decide(s, pid)
    case Superseding(_) => ClaimStep(s, pid)
    case Closing(_) => FinishStep(s, pid, c)
    case Rechecking => Recheck(s, pid)
    case Handing => RequestStep(s, pid, c)
  }

  /** Progress is recorded on whatever request is in progress; it may bind a cycle. */
  function ProgressStep(s: System, pid: Pid, cycle: string): System
  {
    if pid in s.procs && s.procs[pid].phase.Working? then s.(slot := Progressed(s.slot, cycle)) else s
  }

  function Next(s: System, m: Move): System
  {
    match m
    case Spawn(pid, program) =>
      if pid == 0 || pid in s.procs then s
      else s.(alive := s.alive + {pid}, procs := s.procs[pid := Proc(program, Observing)])
    case Step(pid, c) => if pid in s.procs then StepOf(s, pid, c) else s
    case Progress(pid, cycle) => ProgressStep(s, pid, cycle)
    case Die(pid) => s.(alive := s.alive - {pid}, procs := s.procs - {pid})
  }

  function Run(s: System, moves: seq<Move>): System
    decreases |moves|
  {
    if moves == [] then s else Run(Next(s, moves[0]), moves[1..])
  }

  /** Any files left by earlier processes, except a lease on a request nobody claimed yet. */
  predicate PlausibleFiles(slot: Slot, lease: LeaseFile)
  {
    !(lease.Lease? && Pends(slot) && slot.value.id == lease.request)
  }

  function Start(slot: Slot, lease: LeaseFile, alive: set<Pid>): System
  {
    System(slot, lease, alive, map[],
           (if slot.Some? then {slot.value.id} else {}) + (if lease.Lease? then {lease.request} else {}),
           map[], map[], [], map[])
  }

  // ---------------------------------------------------------------- invariants

  predicate IdsAccounted(s: System)
  {
    && (s.slot.Some? ==> s.slot.value.id in s.ids)
    && (s.lease.Lease? ==> s.lease.request in s.ids)
    && s.claimer.Keys <= s.ids && s.closer.Keys <= s.ids
    && (Pends(s.slot) ==> s.slot.value.id !in s.claimer)
    && (Busy(s.slot) ==> s.slot.value.id !in s.closer)
  }

  predicate LeaseFollowsClaim(s: System)
  {
    s.lease.Lease? ==>
      && (s.lease.request in s.claimer ==> s.claimer[s.lease.request] == s.lease.pid)
      && !(Pends(s.slot) && s.slot.value.id == s.lease.request)
  }

  /** A process with a claim is its recorded claimer; the claim is still the one in progress
      unless somebody closed it. */
  predicate ClaimHeld(s: System, pid: Pid)
    requires pid in s.procs && s.procs[pid].phase.HasClaim()
  {
    var t := s.procs[pid].phase.claimed;
    && t.state.InProgress?
    && t.id in s.claimer && s.claimer[t.id] == pid
    && (t.id in s.closer || (Runs(s.slot) && s.slot.value.id == t.id))
  }

  predicate ProcsSound(s: System)
  {
    && (forall p | p in s.procs :: 0 < p && p in s.alive)
    && (forall p | p in s.procs && s.procs[p].phase.HasClaim() :: ClaimHeld(s, p))
    && (forall p | p in s.procs && (s.procs[p].phase.Working? || s.procs[p].phase.Releasing?) ::
          s.lease == Lease(s.procs[p].phase.claimed.id, p))
  }

  predicate HistorySound(s: System)
  {
    && (forall t | t in s.replaced :: t.Terminal())
    && (forall id | id in s.closer && s.closer[id].1 :: id in s.claimer && s.claimer[id] == s.closer[id].0)
  }

  predicate Invariant(s: System)
  {
    IdsAccounted(s) && LeaseFollowsClaim(s) && ProcsSound(s) && HistorySound(s)
  }

  lemma LeaveKeeps(s: System, pid: Pid)
    requires Invariant(s)
    ensures forall exit :: Invariant(Leave(s, pid, exit))
  {
  }

  /** Entering a phase that holds no claim. */
  lemma GoKeeps(s: System, pid: Pid, phase: Phase)
    requires Invariant(s) && pid in s.procs && !phase.HasClaim()
    ensures Invariant(Go(s, pid, phase))
  {
  }

  /** Closing the request in progress, as a failure or by its claimer. */
  lemma CloseKeeps(s: System, pid: Pid, succeeded: bool, cycle: string, snapshot: string)
    requires Invariant(s) && Runs(s.slot)
    requires succeeded ==> s.slot.value.id in s.claimer && s.claimer[s.slot.value.id] == pid
    ensures Invariant(CloseSlot(s, pid, succeeded, cycle, snapshot))
  {
  }

  lemma CreateKeeps(s: System, me: string, freshId: string)
    requires Invariant(s) && !Busy(s.slot) && freshId !in s.ids
    ensures Invariant(CreateRequest(s, me, freshId))
  {
  }

  lemma ClaimSlotKeeps(s: System, pid: Pid)
    requires Invariant(s) && Pends(s.slot)
    ensures Invariant(ClaimSlot(s, pid))
  {
  }

  /** Holding the request just claimed. */
  lemma ClaimingKeeps(s: System, pid: Pid, phase: Phase)
    requires Invariant(s) && Pends(s.slot) && pid in s.procs && !s.procs[pid].phase.HasClaim()
    requires (phase.Owning? || phase.Closing?) && phase.claimed == Claimed(s.slot.value)
    ensures Invariant(Go(ClaimSlot(s, pid), pid, phase))
  {
    ClaimSlotKeeps(s, pid);
    var t := ClaimSlot(s, pid);
    var u := Go(t, pid, phase);
    forall p | p in u.procs && u.procs[p].phase.HasClaim()
      ensures ClaimHeld(u, p)
    {
      assert p != pid ==> ClaimHeld(t, p);
    }
  }

  lemma ClaimStepKeeps(s: System, pid: Pid)
    requires Invariant(s) && pid in s.procs && !s.procs[pid].phase.HasClaim()
    ensures Invariant(ClaimStep(s, pid))
  {
    LeaveKeeps(s, pid);
    if Pends(s.slot) {
      ClaimSlotKeeps(s, pid);
      LeaveKeeps(ClaimSlot(s, pid), pid);
      ClaimingKeeps(s, pid, Owning(Claimed(s.slot.value)));
      ClaimingKeeps(s, pid, Closing(Claimed(s.slot.value)));
    }
  }

  lemma OwnStepKeeps(s: System, pid: Pid, c: Choice)
    requires Invariant(s) && pid in s.procs && s.procs[pid].phase.Owning?
    ensures Invariant(OwnStep(s, pid, c))
  {
  }

  lemma FinishStepKeeps(s: System, pid: Pid, c: Choice)
    requires Invariant(s) && pid in s.procs && (s.procs[pid].phase.Working? || s.procs[pid].phase.Closing?)
    ensures Invariant(FinishStep(s, pid, c))
  {
    LeaveKeeps(s, pid);
    var phase := s.procs[pid].phase;
    assert ClaimHeld(s, pid);
    if phase.Working? && Finishable(s.slot, phase.claimed, c.cycle) {
      CloseKeeps(s, pid, c.succeeded, c.cycle, c.snapshot);
      var u := CloseSlot(s, pid, c.succeeded, c.cycle, c.snapshot);
      var t := FinishStep(s, pid, c);
      forall p | p in t.procs && t.procs[p].phase.HasClaim()
        ensures ClaimHeld(t, p)
      {
        assert ClaimHeld(u, p);
      }
    } else if phase.Closing? && Finishable(s.slot, phase.claimed, "") {
      CloseKeeps(s, pid, false, "", "");
      GoKeeps(CloseSlot(s, pid, false, "", ""), pid, Rechecking);
    }
  }

  lemma ReleaseStepKeeps(s: System, pid: Pid, c: Choice)
    requires Invariant(s) && pid in s.procs && s.procs[pid].phase.Releasing?
    ensures Invariant(ReleaseStep(s, pid, c))
  {
  }

  lemma ObserveKeeps(s: System, pid: Pid)
    requires Invariant(s) && pid in s.procs
    ensures Invariant(Observe(s, pid))
  {
    LeaveKeeps(s, pid);
    if Runs(s.slot) {
      CloseKeeps(s, pid, false, s.slot.value.cycle, s.slot.value.snapshot);
      var t := CloseSlot(s, pid, false, s.slot.value.cycle, s.slot.value.snapshot);
      GoKeeps(t, pid, Rereading);
      GoKeeps(t, pid, Requesting);
    } else {
      DecideKeeps(s, pid);
      GoKeeps(s, pid, Requesting);
    }
  }

  lemma DecideKeeps(s: System, pid: Pid)
    requires Invariant(s) && pid in s.procs
    ensures Invariant(Decide(s, pid)) && Invariant(Recheck(s, pid))
  {
    LeaveKeeps(s, pid);
    GoKeeps(s, pid, Handing);
    if Pends(s.slot) {
      GoKeeps(s, pid, Superseding(s.slot.value.id));
    }
  }

  lemma RequestStepKeeps(s: System, pid: Pid, c: Choice)
    requires Invariant(s) && pid in s.procs
    ensures Invariant(RequestStep(s, pid, c))
  {
    LeaveKeeps(s, pid);
    GoKeeps(s, pid, Claiming);
    if !Busy(s.slot) && c.freshId !in s.ids {
      var me := Me(s.procs[pid].program);
      CreateKeeps(s, me, c.freshId);
      GoKeeps(CreateRequest(s, me, c.freshId), pid, Claiming);
      LeaveKeeps(CreateRequest(s, me, c.freshId), pid);
    }
  }

  lemma StepKeepsInvariant(s: System, pid: Pid, c: Choice)
    requires Invariant(s) && pid in s.procs
    ensures Invariant(StepOf(s, pid, c))
  {
    match s.procs[pid].phase
    case Observing => ObserveKeeps(s, pid);
    case Requesting => RequestStepKeeps(s, pid, c);
    case Claiming => ClaimStepKeeps(s, pid);
    case Owning(_) => OwnStepKeeps(s, pid, c);
    case Working(_) => FinishStepKeeps(s, pid, c);
    case Releasing(_, _) => ReleaseStepKeeps(s, pid, c);
    case Rereading => DecideKeeps(s, pid);
    case Superseding(_) => ClaimStepKeeps(s, pid);
    case Closing(_) => FinishStepKeeps(s, pid, c);
    case Rechecking => DecideKeeps(s, pid);
    case Handing => RequestStepKeeps(s, pid, c);
  }

  lemma NextKeepsInvariant(s: System, m: Move)
    requires Invariant(s)
    ensures Invariant(Next(s, m))
  {
    if m.Step? {
      if m.pid in s.procs {
        StepKeepsInvariant(s, m.pid, m.choice);
      }
    } else {
      var t := Next(s, m);
      assert forall p | p in t.procs && t.procs[p].phase.HasClaim() :: ClaimHeld(s, p) && ClaimHeld(t, p);
    }
  }

  lemma {:induction false} RunKeepsInvariant(s: System, moves: seq<Move>)
    requires Invariant(s)
    ensures Invariant(Run(s, moves))
    decreases |moves|
  {
    if moves != [] {
      NextKeepsInvariant(s, moves[0]);
      RunKeepsInvariant(Next(s, moves[0]), moves[1..]);
    }
  }

  // ---------------------------------------------------------------- what a step leaves alone

  /** `t` differs from `s` in no other process than `pid`. */
  predicate OnlyMoves(s: System, t: System, pid: Pid, p: Pid)
  {
    p != pid ==> (p in t.procs <==> p in s.procs) && (p in s.procs ==> t.procs[p] == s.procs[p]) && t.alive == s.alive
  }

  /** And it closes no request. */
  predicate Quiet(s: System, t: System, pid: Pid, p: Pid) { OnlyMoves(s, t, pid, p) && t.closer == s.closer }

  lemma DecideIsQuiet(s: System, pid: Pid, p: Pid)
    requires pid in s.procs
    ensures Quiet(s, Decide(s, pid), pid, p) && Quiet(s, Recheck(s, pid), pid, p)
  {
  }

  lemma RequestIsQuiet(s: System, pid: Pid, c: Choice, p: Pid)
    requires pid in s.procs
    ensures Quiet(s, RequestStep(s, pid, c), pid, p)
  {
  }

  lemma ClaimIsQuiet(s: System, pid: Pid, p: Pid)
    requires pid in s.procs
    ensures Quiet(s, ClaimStep(s, pid), pid, p)
  {
  }

  lemma LeaseIsQuiet(s: System, pid: Pid, c: Choice, p: Pid)
    requires pid in s.procs
    ensures s.procs[pid].phase.Owning? ==> Quiet(s, OwnStep(s, pid, c), pid, p)
    ensures s.procs[pid].phase.Releasing? ==> Quiet(s, ReleaseStep(s, pid, c), pid, p)
  {
  }

  lemma ObserveLeavesOthers(s: System, pid: Pid, p: Pid)
    requires pid in s.procs
    ensures OnlyMoves(s, Observe(s, pid), pid, p)
  {
    DecideIsQuiet(s, pid, p);
  }

  lemma FinishLeavesOthers(s: System, pid: Pid, c: Choice, p: Pid)
    requires pid in s.procs && (s.procs[pid].phase.Working? || s.procs[pid].phase.Closing?)
    ensures OnlyMoves(s, FinishStep(s, pid, c), pid, p)
  {
  }

  predicate Finishing(phase: Phase) { phase.Observing? || phase.Working? || phase.Closing? }

  lemma StepLeavesOthers(s: System, pid: Pid, c: Choice, p: Pid)
    requires pid in s.procs
    ensures OnlyMoves(s, StepOf(s, pid, c), pid, p)
    ensures !Finishing(s.procs[pid].phase) ==> StepOf(s, pid, c).closer == s.closer
  {
    match s.procs[pid].phase
    case Observing => ObserveLeavesOthers(s, pid, p);
    case Requesting => RequestIsQuiet(s, pid, c, p);
    case Claiming => ClaimIsQuiet(s, pid, p);
    case Owning(_) => LeaseIsQuiet(s, pid, c, p);
    case Working(_) => FinishLeavesOthers(s, pid, c, p);
    case Releasing(_, _) => LeaseIsQuiet(s, pid, c, p);
    case Rereading => DecideIsQuiet(s, pid, p);
    case Superseding(_) => ClaimIsQuiet(s, pid, p);
    case Closing(_) => FinishLeavesOthers(s, pid, c, p);
    case Rechecking => DecideIsQuiet(s, pid, p);
    case Handing => RequestIsQuiet(s, pid, c, p);
  }

  lemma OthersLeaveProcess(s: System, m: Move, p: Pid)
    requires m.pid != p
    ensures p in Next(s, m).procs <==> p in s.procs
    ensures p in s.procs ==> Next(s, m).procs[p] == s.procs[p]
    ensures p in s.alive ==> p in Next(s, m).alive
  {
    if m.Step? && m.pid in s.procs {
      StepLeavesOthers(s, m.pid, m.choice, p);
    }
  }

  // ---------------------------------------------------------------- safety over every run

  /** Two processes are never in the guarded section together; every replaced request is
      terminal, so at most the slot's own request is open; and only the process that claimed
      a request ever records it as a success. */
  lemma CoordinationIsSafe(slot: Slot, lease: LeaseFile, alive: set<Pid>, moves: seq<Move>, p: Pid, q: Pid)
    requires PlausibleFiles(slot, lease)
    ensures
      var s := Run(Start(slot, lease, alive), moves);
      && (p in s.procs && q in s.procs && s.procs[p].phase.Working? && s.procs[q].phase.Working? ==> p == q)
      && (forall t | t in s.replaced :: t.Terminal())
      && (forall id | id in s.closer && s.closer[id].1 :: id in s.claimer && s.claimer[id] == s.closer[id].0)
  {
    RunKeepsInvariant(Start(slot, lease, alive), moves);
  }

  lemma OwnerIsUndisturbed(s: System, m: Move)
    requires Invariant(s) && Runs(s.slot) && ActiveOwner(s.lease, s.alive, s.slot.value.id) && m.pid != s.lease.pid
    ensures
      var t := Next(s, m);
      && t.lease == s.lease
      && Runs(t.slot) && t.slot.value.id == s.slot.value.id && t.closer == s.closer
  {
    if m.Step? && m.pid in s.procs && s.procs[m.pid].phase.HasClaim() {
      assert ClaimHeld(s, m.pid);
    }
  }

  /** While a request is in progress under its exact live owner, no move of any other process
      closes it, replaces it or takes the lease. */
  lemma LiveOwnerIsUndisturbed(slot: Slot, lease: LeaseFile, alive: set<Pid>, moves: seq<Move>, m: Move)
    requires PlausibleFiles(slot, lease)
    requires
      var s := Run(Start(slot, lease, alive), moves);
      Runs(s.slot) && ActiveOwner(s.lease, s.alive, s.slot.value.id) && m.pid != s.lease.pid
    ensures
      var s := Run(Start(slot, lease, alive), moves);
      var t := Next(s, m);
      && t.lease == s.lease
      && Runs(t.slot) && t.slot.value.id == s.slot.value.id && t.closer == s.closer
  {
    RunKeepsInvariant(Start(slot, lease, alive), moves);
    OwnerIsUndisturbed(Run(Start(slot, lease, alive), moves), m);
  }

  predicate KeepsVerdicts(s: System, t: System)
  {
    forall id | id in s.closer :: id in t.closer && t.closer[id] == s.closer[id]
  }

  lemma ObserveKeepsVerdicts(s: System, pid: Pid)
    requires IdsAccounted(s) && pid in s.procs
    ensures KeepsVerdicts(s, Observe(s, pid))
  {
  }

  lemma FinishKeepsVerdicts(s: System, pid: Pid, c: Choice)
    requires IdsAccounted(s) && pid in s.procs && (s.procs[pid].phase.Working? || s.procs[pid].phase.Closing?)
    ensures KeepsVerdicts(s, FinishStep(s, pid, c))
  {
  }

  lemma VerdictsStay(s: System, m: Move)
    requires Invariant(s)
    ensures KeepsVerdicts(s, Next(s, m))
  {
    if m.Step? && m.pid in s.procs {
      StepLeavesOthers(s, m.pid, m.choice, m.pid);
      match s.procs[m.pid].phase
      case Observing => ObserveKeepsVerdicts(s, m.pid);
      case Working(_) => FinishKeepsVerdicts(s, m.pid, m.choice);
      case Closing(_) => FinishKeepsVerdicts(s, m.pid, m.choice);
      case _ =>
    }
  }

  /** A verdict, once recorded, is never changed in any continuation.  This rests on every
      store operation being one step; `DiagnosticProgress` says when it holds with progress
      records in two. */
  lemma {:induction false} VerdictsAreFinal(s: System, moves: seq<Move>)
    requires Invariant(s)
    ensures KeepsVerdicts(s, Run(s, moves))
    decreases |moves|
  {
    if moves != [] {
      VerdictsStay(s, moves[0]);
      NextKeepsInvariant(s, moves[0]);
      VerdictsAreFinal(Next(s, moves[0]), moves[1..]);
    }
  }

  /** A worker's finish is rejected exactly when its claim was closed before, or another
      cycle was bound to it meanwhile. */
  lemma FinishAcceptedIffStillOpen(slot: Slot, lease: LeaseFile, alive: set<Pid>, moves: seq<Move>, p: Pid, cycle: string)
    requires PlausibleFiles(slot, lease)
    requires var s := Run(Start(slot, lease, alive), moves); p in s.procs && s.procs[p].phase.Working?
    ensures
      var s := Run(Start(slot, lease, alive), moves);
      var mine := s.procs[p].phase.claimed;
      Finishable(s.slot, mine, cycle) <==>
        && mine.id !in s.closer
        && (s.slot.Some? && s.slot.value.cycle != "" && cycle != "" ==> s.slot.value.cycle == cycle)
  {
    RunKeepsInvariant(Start(slot, lease, alive), moves);
    var s := Run(Start(slot, lease, alive), moves);
    assert ClaimHeld(s, p);
  }

  /** The process took the lease of the request while it was in progress: the request is still
      protected, or the process itself closed it. */
  predicate Guards(s: System, p: Pid, id: string)
  {
    if id in s.closer then
      && s.closer[id].0 == p
      && (p in s.procs && s.procs[p].phase.HasClaim() && s.procs[p].phase.claimed.id == id ==> s.procs[p].phase.Releasing?)
    else
      && Runs(s.slot) && s.slot.value.id == id && s.lease == Lease(id, p) && 0 < p && p in s.alive
      && (p in s.procs ==> s.procs[p].phase.Observing? || (s.procs[p].phase.Working? && s.procs[p].phase.claimed.id == id))
  }

  lemma OthersRespectGuard(s: System, m: Move, p: Pid, id: string)
    requires Invariant(s) && Guards(s, p, id) && m.pid != p
    ensures Guards(Next(s, m), p, id)
  {
    OthersLeaveProcess(s, m, p);
    if id in s.closer {
      VerdictsStay(s, m);
    } else {
      OwnerIsUndisturbed(s, m);
    }
  }

  predicate Claims(s: System, p: Pid) { p in s.procs && s.procs[p].phase.HasClaim() }

  lemma DecideClaimsNothing(s: System, p: Pid)
    requires p in s.procs
    ensures !Claims(Decide(s, p), p) && !Claims(Recheck(s, p), p)
  {
  }

  lemma ObserveClaimsNothing(s: System, p: Pid)
    requires p in s.procs
    ensures !Claims(Observe(s, p), p)
  {
    DecideClaimsNothing(s, p);
  }

  lemma RequestClaimsNothing(s: System, p: Pid, c: Choice)
    requires p in s.procs && !s.procs[p].phase.HasClaim()
    ensures !Claims(RequestStep(s, p, c), p)
  {
  }

  /** A claim was made before, or is made on the pending request. */
  predicate FromSlot(s: System, t: System, p: Pid)
  {
    Claims(t, p) ==>
      || (Pends(s.slot) && s.slot.value.id == t.procs[p].phase.claimed.id)
      || (Claims(s, p) && s.procs[p].phase.claimed == t.procs[p].phase.claimed
          && (s.procs[p].phase.Releasing? ==> t.procs[p].phase.Releasing?))
  }

  lemma ClaimsComeFromSlot(s: System, m: Move, p: Pid)
    requires m.pid == p
    ensures FromSlot(s, Next(s, m), p)
  {
    if m.Step? && p in s.procs {
      match s.procs[p].phase
      case Observing => ObserveClaimsNothing(s, p);
      case Requesting => RequestClaimsNothing(s, p, m.choice);
      case Handing => RequestClaimsNothing(s, p, m.choice);
      case Rereading => DecideClaimsNothing(s, p);
      case Rechecking => DecideClaimsNothing(s, p);
      case _ => assert FromSlot(s, StepOf(s, p, m.choice), p);
    }
  }

  lemma GuardKeepsGuard(s: System, m: Move, p: Pid, id: string)
    requires Invariant(s) && Guards(s, p, id) && m.pid == p && !m.Die?
    ensures Guards(Next(s, m), p, id)
  {
    if id in s.closer {
      VerdictsStay(s, m);
      ClaimsComeFromSlot(s, m, p);
    }
  }

  lemma {:induction false} RunKeepsGuard(s: System, moves: seq<Move>, p: Pid, id: string)
    requires Invariant(s) && Guards(s, p, id)
    requires forall i | 0 <= i < |moves| :: moves[i] != Die(p)
    ensures Guards(Run(s, moves), p, id)
    decreases |moves|
  {
    if moves != [] {
      NextKeepsInvariant(s, moves[0]);
      if moves[0].pid == p {
        GuardKeepsGuard(s, moves[0], p, id);
      } else {
        OthersRespectGuard(s, moves[0], p, id);
      }
      RunKeepsGuard(Next(s, moves[0]), moves[1..], p, id);
    }
  }

  predicate HoldsClaim(s: System, p: Pid)
    requires p in s.procs && s.procs[p].phase.HasClaim()
  {
    Runs(s.slot) && s.slot.value.id == s.procs[p].phase.claimed.id
  }

  /** The runner took its lease when the slot no longer held its claim. */
  lemma LostClaimStaysClosed(s: System, p: Pid, c: Choice, after: seq<Move>, cycle: string)
    requires Invariant(s) && p in s.procs && s.procs[p].phase.Owning? && !HoldsClaim(s, p)
    ensures
      var mine, t := s.procs[p].phase.claimed, Run(Next(s, Step(p, c)), after);
      mine.id in s.closer && mine.id in t.closer && t.closer[mine.id] == s.closer[mine.id] && !Finishable(t.slot, mine, cycle)
  {
    var mine, owned := s.procs[p].phase.claimed, Next(s, Step(p, c));
    assert ClaimHeld(s, p);
    NextKeepsInvariant(s, Step(p, c));
    VerdictsStay(s, Step(p, c));
    VerdictsAreFinal(owned, after);
    RunKeepsInvariant(owned, after);
    assert mine.id in s.closer;
    ClosedIsNotFinishable(Run(owned, after), mine, cycle);
  }

  lemma ClosedIsNotFinishable(t: System, mine: Ticket, cycle: string)
    requires Invariant(t) && mine.id in t.closer
    ensures !Finishable(t.slot, mine, cycle)
  {
  }

  lemma OwnerGuards(s: System, p: Pid, c: Choice)
    requires Invariant(s) && p in s.procs && s.procs[p].phase.Owning? && Acquirable(s.lease, s.alive, c.removable) && HoldsClaim(s, p)
    ensures Invariant(Next(s, Step(p, c))) && Guards(Next(s, Step(p, c)), p, s.procs[p].phase.claimed.id)
  {
    assert ClaimHeld(s, p);
    NextKeepsInvariant(s, Step(p, c));
  }

  /** The runner took its lease while the slot still held its claim. */
  lemma KeptClaimIsClosedByItsOwner(s: System, p: Pid, c: Choice, after: seq<Move>)
    requires Invariant(s) && p in s.procs && s.procs[p].phase.Owning? && Acquirable(s.lease, s.alive, c.removable) && HoldsClaim(s, p)
    requires forall i | 0 <= i < |after| :: after[i] != Die(p)
    ensures Invariant(Run(Next(s, Step(p, c)), after)) && Guards(Run(Next(s, Step(p, c)), after), p, s.procs[p].phase.claimed.id)
  {
    var owned := Next(s, Step(p, c));
    OwnerGuards(s, p, c);
    RunKeepsInvariant(owned, after);
    RunKeepsGuard(owned, after, p, s.procs[p].phase.claimed.id);
  }

  lemma GuardedFinish(t: System, p: Pid, mine: Ticket, cycle: string)
    requires Invariant(t) && Guards(t, p, mine.id)
    requires p in t.procs && t.procs[p].phase.Working? && t.procs[p].phase.claimed == mine
    ensures mine.id !in t.closer && t.slot.Some? && t.slot.value.id == mine.id
    ensures Finishable(t.slot, mine, cycle) <==> t.slot.value.cycle == "" || cycle == "" || t.slot.value.cycle == cycle
  {
    assert ClaimHeld(t, p);
  }

  /** A runner's finish is accepted, in every continuation in which its process lives, exactly
      when the slot still held its claim at the moment it took the lease, and no other cycle
      was bound to the request meanwhile.  If the slot held it, nobody else ever closes the
      request; if not, it is closed already and stays so, whoever lives or dies. */
  lemma OwnedClaimIsClosedByItsOwner(slot: Slot, lease: LeaseFile, alive: set<Pid>, before: seq<Move>,
                                     p: Pid, c: Choice, after: seq<Move>, cycle: string)
    requires PlausibleFiles(slot, lease)
    requires
      var s := Run(Start(slot, lease, alive), before);
      p in s.procs && s.procs[p].phase.Owning? && Acquirable(s.lease, s.alive, c.removable)
    ensures
      var s := Run(Start(slot, lease, alive), before);
      var mine := s.procs[p].phase.claimed;
      var t := Run(Next(s, Step(p, c)), after);
      if HoldsClaim(s, p) then
        (forall i | 0 <= i < |after| :: after[i] != Die(p)) ==>
          && (mine.id in t.closer ==> t.closer[mine.id].0 == p)
          && (p in t.procs && t.procs[p].phase.Working? && t.procs[p].phase.claimed == mine ==>
                && mine.id !in t.closer && t.slot.Some? && t.slot.value.id == mine.id
                && (Finishable(t.slot, mine, cycle) <==>
                      t.slot.value.cycle == "" || cycle == "" || t.slot.value.cycle == cycle))
      else
        mine.id in s.closer && mine.id in t.closer && t.closer[mine.id] == s.closer[mine.id] && !Finishable(t.slot, mine, cycle)
  {
    var s := Run(Start(slot, lease, alive), before);
    RunKeepsInvariant(Start(slot, lease, alive), before);
    var mine, t := s.procs[p].phase.claimed, Run(Next(s, Step(p, c)), after);
    if !HoldsClaim(s, p) {
      LostClaimStaysClosed(s, p, c, after, cycle);
    } else if forall i | 0 <= i < |after| :: after[i] != Die(p) {
      KeptClaimIsClosedByItsOwner(s, p, c, after);
      if p in t.procs && t.procs[p].phase.Working? && t.procs[p].phase.claimed == mine {
        GuardedFinish(t, p, mine, cycle);
      }
    }
  }

  // ---------------------------------------------------------------- what a primer's exit means

  predicate PhaseFits(q: Proc)
  {
    var phase := q.phase;
    if q.program.Primer? then
      phase.Observing? || phase.Rereading? || phase.Superseding? || phase.Closing? || phase.Rechecking? || phase.Handing?
    else
      phase.Observing? || phase.Requesting? || phase.Claiming? || phase.Owning? || phase.Working? || phase.Releasing?
  }

  predicate PhasesFit(s: System) { forall p | p in s.procs :: PhaseFits(s.procs[p]) }

  predicate Fits(t: System, pid: Pid) { pid in t.procs ==> PhaseFits(t.procs[pid]) }

  lemma EntryFits(s: System, pid: Pid, c: Choice)
    requires pid in s.procs && PhaseFits(s.procs[pid])
    ensures s.procs[pid].program.Primer? ==> Fits(Decide(s, pid), pid) && Fits(Recheck(s, pid), pid)
    ensures Fits(RequestStep(s, pid, c), pid)
  {
  }

  lemma ObserveFits(s: System, pid: Pid)
    requires pid in s.procs && PhaseFits(s.procs[pid])
    ensures Fits(Observe(s, pid), pid)
  {
    EntryFits(s, pid, IDLE);
  }

  lemma ClaimFits(s: System, pid: Pid, c: Choice)
    requires pid in s.procs && PhaseFits(s.procs[pid])
    ensures s.procs[pid].phase.Claiming? || s.procs[pid].phase.Superseding? ==> Fits(ClaimStep(s, pid), pid)
    ensures s.procs[pid].phase.Owning? ==> Fits(OwnStep(s, pid, c), pid)
    ensures s.procs[pid].phase.Working? || s.procs[pid].phase.Closing? ==> Fits(FinishStep(s, pid, c), pid)
    ensures s.procs[pid].phase.Releasing? ==> Fits(ReleaseStep(s, pid, c), pid)
  {
  }

  lemma StepFits(s: System, pid: Pid, c: Choice)
    requires pid in s.procs && PhaseFits(s.procs[pid])
    ensures Fits(StepOf(s, pid, c), pid)
  {
    match s.procs[pid].phase
    case Observing => ObserveFits(s, pid);
    case Requesting => EntryFits(s, pid, c);
    case Handing => EntryFits(s, pid, c);
    case Rereading => EntryFits(s, pid, c);
    case Rechecking => EntryFits(s, pid, c);
    case _ => ClaimFits(s, pid, c);
  }

  lemma NextKeepsPhases(s: System, m: Move)
    requires PhasesFit(s)
    ensures PhasesFit(Next(s, m))
  {
    forall p | p in Next(s, m).procs
      ensures PhaseFits(Next(s, m).procs[p])
    {
      if m.pid != p {
        OthersLeaveProcess(s, m, p);
      } else if m.Step? {
        StepFits(s, p, m.choice);
      }
    }
  }

  lemma {:induction false} RunKeepsPhases(s: System, moves: seq<Move>)
    requires PhasesFit(s)
    ensures PhasesFit(Run(s, moves))
    decreases |moves|
  {
    if moves != [] {
      NextKeepsPhases(s, moves[0]);
      RunKeepsPhases(Next(s, moves[0]), moves[1..]);
    }
  }

  /** Having left, the primer exits 0 with the latest request its own release's, or in progress
      under a live owner; or it leaves by an exception. */
  predicate HandedOff(t: System, p: Pid, me: string)
  {
    p !in t.procs ==>
      p in t.exits &&
      (|| t.exits[p] == Raised
       || (&& t.exits[p] == Code(0) && t.slot.Some?
           && (t.slot.value.requester == me || (Runs(t.slot) && ActiveOwner(t.lease, t.alive, t.slot.value.id)))))
  }

  lemma DecideHandsOff(s: System, p: Pid, c: Choice)
    requires p in s.procs && s.procs[p].program.Primer?
    ensures HandedOff(Decide(s, p), p, Me(s.procs[p].program)) && HandedOff(Recheck(s, p), p, Me(s.procs[p].program))
    ensures HandedOff(RequestStep(s, p, c), p, Me(s.procs[p].program))
  {
  }

  lemma ObserveHandsOff(s: System, p: Pid)
    requires p in s.procs && s.procs[p].program.Primer?
    ensures HandedOff(Observe(s, p), p, Me(s.procs[p].program))
  {
    DecideHandsOff(s, p, IDLE);
  }

  lemma SupersedeHandsOff(s: System, p: Pid, c: Choice)
    requires p in s.procs && s.procs[p].program.Primer?
    ensures s.procs[p].phase.Superseding? ==> HandedOff(ClaimStep(s, p), p, Me(s.procs[p].program))
    ensures s.procs[p].phase.Closing? ==> HandedOff(FinishStep(s, p, c), p, Me(s.procs[p].program))
  {
  }

  /** In every interleaving: when a primer exits 0, the latest request is its own release's, or
      is in progress under a live owner; otherwise it leaves by an exception. */
  lemma PrimerExitsZeroHandedOff(slot: Slot, lease: LeaseFile, alive: set<Pid>, moves: seq<Move>, p: Pid, c: Choice)
    requires
      var s := Run(Start(slot, lease, alive), moves);
      p in s.procs && s.procs[p].program.Primer?
    ensures
      var s := Run(Start(slot, lease, alive), moves);
      HandedOff(StepOf(s, p, c), p, Me(s.procs[p].program))
  {
    var s := Run(Start(slot, lease, alive), moves);
    RunKeepsPhases(Start(slot, lease, alive), moves);
    match s.procs[p].phase
    case Observing => ObserveHandsOff(s, p);
    case Superseding(_) => SupersedeHandsOff(s, p, c);
    case Closing(_) => SupersedeHandsOff(s, p, c);
    case _ => DecideHandsOff(s, p, c);
  }

  // ---------------------------------------------------------------- ownerless requests do not block

  lemma ThreeMoves(s: System, a: Move, b: Move, c: Move)
    ensures Run(s, [a, b, c]) == Next(Next(Next(s, a), b), c)
  {
    assert [a, b, c][1..] == [b, c] && [b, c][1..] == [c] && [c][1..] == [];
    assert Run(Next(Next(s, a), b), [c]) == Next(Next(Next(s, a), b), c);
  }

  lemma FourMoves(s: System, a: Move, b: Move, c: Move, d: Move)
    ensures Run(s, [a, b, c, d]) == Next(Next(Next(Next(s, a), b), c), d)
  {
    assert [a, b, c, d][1..] == [b, c, d];
    ThreeMoves(Next(s, a), b, c, d);
  }

  /** A request in progress without its own live owner never blocks the slot: from any state,
      a runner left alone closes it and claims a fresh request in its place.  It goes on to
      own the lease exactly when the lease file can be taken: when a live process holds it
      for another request (as a worker does whose claim was closed under it), or the file
      cannot be removed, the runner leaves its claim in progress without an owner, for the
      next process to close. */
  lemma RunnerAloneTakesOver(s: System, pid: Pid, program: Program, c: Choice)
    requires program.Runner? && pid != 0 && pid !in s.procs
    requires Runs(s.slot) && s.slot.value.id != c.freshId && c.freshId !in s.ids
    requires !ActiveOwner(s.lease, s.alive + {pid}, s.slot.value.id)
    ensures
      var mine := Claimed(NewTicket(c.freshId, Requester(program.release)));
      var begun := Next(s, Spawn(pid, program));
      var t := Run(begun, [Step(pid, c), Step(pid, c), Step(pid, c), Step(pid, c)]);
      && s.slot.value.id in t.closer && t.closer[s.slot.value.id] == (pid, false)
      && t.slot == Some(mine)
      && if Acquirable(s.lease, s.alive + {pid}, c.removable)
         then pid in t.procs && t.procs[pid] == Proc(program, Working(mine)) && t.lease == Lease(mine.id, pid)
         else pid !in t.procs && t.lease == s.lease
  {
    var s0 := Next(s, Spawn(pid, program));
    FourMoves(s0, Step(pid, c), Step(pid, c), Step(pid, c), Step(pid, c));
    var s1 := Next(s0, Step(pid, c));
    assert s1.procs[pid] == Proc(program, Requesting) && !Busy(s1.slot) && s1.ids == s.ids && s1.lease == s.lease;
    var s2 := Next(s1, Step(pid, c));
    assert s2.procs[pid] == Proc(program, Claiming) && s2.slot == Some(NewTicket(c.freshId, Requester(program.release)));
    var s3 := Next(s2, Step(pid, c));
    assert s3.procs[pid].phase.Owning? && s3.lease == s.lease && s3.alive == s.alive + {pid};
  }

  // ---------------------------------------------------------------- undisturbed programs

  /** The process makes n steps while nobody else moves. */
  function Steps(s: System, pid: Pid, c: Choice, n: nat): System
    decreases n
  {
    if n == 0 then s else Steps(Next(s, Step(pid, c)), pid, c, n - 1)
  }

  /** Stepping a process that has left changes nothing. */
  lemma {:induction false} GoneStaysGone(s: System, pid: Pid, c: Choice, n: nat)
    requires pid !in s.procs
    ensures Steps(s, pid, c, n) == s
    decreases n
  {
    if n > 0 {
      GoneStaysGone(s, pid, c, n - 1);
    }
  }

  /** The primer left with exit 0, the given slot, and the lease file as it was. */
  predicate LeftZero(t: System, pid: Pid, slot: Slot, lease: LeaseFile)
  {
    pid !in t.procs && pid in t.exits && t.exits[pid] == Code(0) && t.slot == slot && t.lease == lease
  }

  lemma PrimerHands(s: System, pid: Pid, release: string, c: Choice, n: nat)
    requires pid in s.procs && s.procs[pid] == Proc(Primer(release), Handing)
    requires !Busy(s.slot) && c.freshId !in s.ids && 1 <= n
    ensures LeftZero(Steps(s, pid, c, n), pid, Some(NewTicket(c.freshId, Requester(release))), s.lease)
  {
    GoneStaysGone(Next(s, Step(pid, c)), pid, c, n - 1);
  }

  lemma PrimerRechecks(s: System, pid: Pid, release: string, c: Choice, n: nat)
    requires pid in s.procs && s.procs[pid].program == Primer(release) && (s.procs[pid].phase.Rechecking? || s.procs[pid].phase.Rereading?)
    requires !Busy(s.slot) && (s.slot.Some? ==> s.slot.value.requester != Requester(release)) && c.freshId !in s.ids && 2 <= n
    ensures LeftZero(Steps(s, pid, c, n), pid, Some(NewTicket(c.freshId, Requester(release))), s.lease)
  {
    var t := Go(s, pid, Handing);
    assert Next(s, Step(pid, c)) == t;
    PrimerHands(t, pid, release, c, n - 1);
  }

  lemma PrimerCloses(s: System, pid: Pid, release: string, c: Choice, n: nat)
    requires pid in s.procs && s.procs[pid].program == Primer(release) && s.procs[pid].phase.Closing?
    requires Runs(s.slot) && s.procs[pid].phase.claimed == s.slot.value
    requires s.slot.value.requester != Requester(release) && c.freshId !in s.ids && 3 <= n
    ensures LeftZero(Steps(s, pid, c, n), pid, Some(NewTicket(c.freshId, Requester(release))), s.lease)
  {
    var t := Go(CloseSlot(s, pid, false, "", ""), pid, Rechecking);
    assert Next(s, Step(pid, c)) == t;
    PrimerRechecks(t, pid, release, c, n - 1);
  }

  lemma PrimerSupersedes(s: System, pid: Pid, release: string, c: Choice, n: nat)
    requires Pends(s.slot) && s.slot.value.requester != Requester(release) && c.freshId !in s.ids && 4 <= n
    requires pid in s.procs && s.procs[pid] == Proc(Primer(release), Superseding(s.slot.value.id))
    ensures LeftZero(Steps(s, pid, c, n), pid, Some(NewTicket(c.freshId, Requester(release))), s.lease)
  {
    var t := Go(ClaimSlot(s, pid), pid, Closing(Claimed(s.slot.value)));
    assert Next(s, Step(pid, c)) == t;
    PrimerCloses(t, pid, release, c, n - 1);
  }

  /** Alone, the primer's steps amount to priming in one step, and exit 0. */
  lemma PrimerAloneIsPrimed(s: System, pid: Pid, release: string, c: Choice)
    requires pid in s.procs && s.procs[pid] == Proc(Primer(release), Observing) && c.freshId !in s.ids
    ensures LeftZero(Steps(s, pid, c, 5), pid, Primed(s.slot, s.lease, s.alive, Requester(release), c.freshId), s.lease)
  {
    var t := Observe(s, pid);
    assert Next(s, Step(pid, c)) == t;
    if pid !in t.procs {
      GoneStaysGone(t, pid, c, 4);
    } else if Runs(s.slot) {
      PrimerRechecks(t, pid, release, c, 4);
    } else if Pends(s.slot) {
      PrimerSupersedes(t, pid, release, c, 4);
    } else {
      PrimerHands(t, pid, release, c, 4);
    }
  }

  /** The runner is in its guarded section with the claim, or has left with the exit. */
  predicate ArrivedAs(t: System, pid: Pid, program: Program, r: Coordinated)
  {
    && t.slot == r.slot && t.lease == r.file
    && if r.claimed.Some? then pid in t.procs && t.procs[pid] == Proc(program, Working(r.claimed.value))
       else pid !in t.procs && pid in t.exits && t.exits[pid] == r.exit
  }

  lemma RunnerOwns(s: System, pid: Pid, program: Program, c: Choice)
    requires pid in s.procs && s.procs[pid] == Proc(program, Claiming) && program.Runner? && Pends(s.slot)
    ensures
      var mine := Claimed(s.slot.value);
      ArrivedAs(Steps(s, pid, c, 2), pid, program,
                if Acquirable(s.lease, s.alive, c.removable) then Coordinated(Code(0), Some(mine), Some(mine), Lease(mine.id, pid))
                else Coordinated(Code(3), None, Some(mine), s.lease))
  {
    var t := Go(ClaimSlot(s, pid), pid, Owning(Claimed(s.slot.value)));
    assert Next(s, Step(pid, c)) == t;
    assert Steps(t, pid, c, 1) == Next(t, Step(pid, c));
  }

  lemma RunnerTakesUp(s: System, pid: Pid, program: Program, c: Choice)
    requires pid in s.procs && s.procs[pid] == Proc(program, Requesting) && program.Runner? && c.freshId !in s.ids
    ensures ArrivedAs(Steps(s, pid, c, 3), pid, program, TakeUp(s.slot, s.lease, Me(program), pid, s.alive, c.removable, c.freshId))
  {
    if Busy(s.slot) && s.slot.value.requester != Me(program) {
      var t := Leave(s, pid, Code(3));
      assert Next(s, Step(pid, c)) == t;
      GoneStaysGone(t, pid, c, 2);
    } else {
      var t := Go(if Busy(s.slot) then s else CreateRequest(s, Me(program), c.freshId), pid, Claiming);
      assert Next(s, Step(pid, c)) == t;
      if Pends(t.slot) {
        RunnerOwns(t, pid, program, c);
      } else {
        RunnerFindsNothing(t, pid, program, c);
      }
    }
  }

  lemma RunnerFindsNothing(s: System, pid: Pid, program: Program, c: Choice)
    requires pid in s.procs && s.procs[pid] == Proc(program, Claiming) && program.Runner? && !Pends(s.slot)
    ensures ArrivedAs(Steps(s, pid, c, 2), pid, program, Coordinated(Code(3), None, s.slot, s.lease))
  {
    var t := Leave(s, pid, Code(3));
    assert Next(s, Step(pid, c)) == t;
    GoneStaysGone(t, pid, c, 1);
  }

  /** After its first step a runner has left as coordinated, or takes up what is left to do. */
  predicate Observes(s: System, t: System, pid: Pid, program: Program, c: Choice)
    requires program.Runner?
  {
    var r := CoordinatedFrom(s.slot, s.lease, true, program.force, Me(program), pid, s.alive, c.removable, c.freshId);
    && c.freshId !in t.ids
    && if pid !in t.procs then ArrivedAs(t, pid, program, r)
       else
         && t.procs[pid] == Proc(program, Requesting)
         && r == TakeUp(t.slot, t.lease, Me(program), pid, t.alive, c.removable, c.freshId)
  }

  lemma RunnerObservesWork(s: System, pid: Pid, program: Program, c: Choice)
    requires pid in s.procs && s.procs[pid] == Proc(program, Observing) && program.Runner? && c.freshId !in s.ids && Runs(s.slot)
    ensures Observes(s, Observe(s, pid), pid, program, c)
  {
  }

  lemma RunnerObservesNoWork(s: System, pid: Pid, program: Program, c: Choice)
    requires pid in s.procs && s.procs[pid] == Proc(program, Observing) && program.Runner? && c.freshId !in s.ids && !Runs(s.slot)
    ensures Observes(s, Observe(s, pid), pid, program, c)
  {
  }

  lemma RunnerObserves(s: System, pid: Pid, program: Program, c: Choice)
    requires pid in s.procs && s.procs[pid] == Proc(program, Observing) && program.Runner? && c.freshId !in s.ids
    ensures Observes(s, Next(s, Step(pid, c)), pid, program, c)
  {
    assert Next(s, Step(pid, c)) == Observe(s, pid);
    if Runs(s.slot) {
      RunnerObservesWork(s, pid, program, c);
    } else {
      RunnerObservesNoWork(s, pid, program, c);
    }
  }

  /** Alone, the runner's steps up to its guarded section amount to coordinating in one step. */
  lemma RunnerAloneIsCoordinated(s: System, pid: Pid, program: Program, c: Choice)
    requires pid in s.procs && s.procs[pid] == Proc(program, Observing) && program.Runner? && c.freshId !in s.ids
    ensures ArrivedAs(Steps(s, pid, c, 4), pid, program,
                      CoordinatedFrom(s.slot, s.lease, true, program.force, Me(program), pid, s.alive, c.removable, c.freshId))
  {
    var t := Next(s, Step(pid, c));
    RunnerObserves(s, pid, program, c);
    assert Steps(s, pid, c, 4) == Steps(t, pid, c, 3);
    if pid !in t.procs {
      GoneStaysGone(t, pid, c, 3);
    } else {
      RunnerTakesUp(t, pid, program, c);
    }
  }

  /** Alone, a worker's closing and leaving do to the two files what its guarded section does:
      the finish is accepted for the claim still in progress with no other cycle bound, and
      only then is the holder's own lease removed. */
  lemma RunnerAloneFinishes(s: System, pid: Pid, c: Choice)
    requires pid in s.procs && s.procs[pid].phase.Working? && s.procs[pid].phase.claimed.state == InProgress
    ensures
      var t, mine := Steps(s, pid, c, 2), s.procs[pid].phase.claimed;
      var ok := && s.slot.Some? && s.slot.value.id == mine.id && s.slot.value.state == InProgress
                && (s.slot.value.cycle == "" || c.cycle == "" || s.slot.value.cycle == c.cycle);
      && pid !in t.procs && t.alive == s.alive && pid in t.exits
      && (!ok ==> t.slot == s.slot && t.lease == s.lease && t.exits[pid] == Raised)
      && (ok ==>
            && t.slot == Some(Ticket(mine.id, s.slot.value.requester, if c.succeeded then Completed else Failed,
                                     if c.cycle != "" then c.cycle else s.slot.value.cycle,
                                     if c.snapshot != "" then c.snapshot else s.slot.value.snapshot))
            && t.lease == (if s.lease == Lease(mine.id, pid) then Absent else s.lease)
            && t.exits[pid] == (if c.escapes then Raised else if c.succeeded then Code(0) else Code(3)))
  {
    var t, mine := Next(s, Step(pid, c)), s.procs[pid].phase.claimed;
    assert Steps(s, pid, c, 2) == Steps(t, pid, c, 1);
    if Finishable(s.slot, mine, c.cycle) {
      assert t == Go(CloseSlot(s, pid, c.succeeded, c.cycle, c.snapshot), pid, Releasing(mine, c.succeeded));
      assert Steps(t, pid, c, 1) == Next(t, Step(pid, c));
    } else {
      assert t == Leave(s, pid, Raised);
      GoneStaysGone(t, pid, c, 1);
    }
  }

  /** Progress is recorded by working runners, and for any other process nothing happens. */
  lemma OnlyWorkersRecord(s: System, pid: Pid, cycle: string)
    ensures
      var t := Next(s, Progress(pid, cycle));
      t == s.(slot := if pid in s.procs && s.procs[pid].phase.Working? then Progressed(s.slot, cycle) else s.slot)
  {
  }

  // ---------------------------------------------------------------- the unprotected window

  const IDLE := Choice("", "", "", false, true, false)

  const CLAIM: seq<Move> := [
    Spawn(1, Runner("a", false)), Step(1, IDLE), Step(1, IDLE.(freshId := "r")), Step(1, IDLE)]
  const LOSE: seq<Move> := [Spawn(2, Primer("b")), Step(2, IDLE), Step(1, IDLE)]

  function Mine(): Ticket { Claimed(NewTicket("r", Requester("a"))) }

  function Running(phase: Phase): Proc { Proc(Runner("a", false), phase) }

  /** The runner of release "a" has claimed its request and not yet taken the lease. */
  function Unowned(): System
  {
    System(Some(Mine()), Absent, {1}, map[1 := Running(Owning(Mine()))], {"r"}, map["r" := 1], map[], [], map[])
  }

  lemma ClaimedFirst()
    ensures Run(Start(None, Absent, {}), CLAIM) == Unowned()
  {
    var s0 := Start(None, Absent, {});
    FourMoves(s0, CLAIM[0], CLAIM[1], CLAIM[2], CLAIM[3]);
    var s2 := Next(Next(s0, CLAIM[0]), CLAIM[1]);
    assert s2 == s0.(alive := {1}, procs := map[1 := Running(Requesting)]);
    var s3 := Next(s2, CLAIM[2]);
    assert s3 == System(Some(NewTicket("r", Requester("a"))), Absent, {1}, map[1 := Running(Claiming)], {"r"}, map[], map[], [], map[]);
    assert Next(s3, CLAIM[3]).procs == Unowned().procs;
  }

  /** The primer of release "b" closed the claim; then the runner took the lease. */
  function Lost(): System
  {
    System(Some(Finished(Mine(), false, "", "")), Lease("r", 1), {1, 2},
           map[1 := Running(Working(Mine())), 2 := Proc(Primer("b"), Rereading)],
           {"r"}, map["r" := 1], map["r" := (2, false)], [], map[])
  }

  lemma ReleasesDiffer(a: string, b: string)
    requires a != b
    ensures Requester(a) != Requester(b)
  {
    assert Requester(a)[|REQUESTER_PREFIX|..] == a && Requester(b)[|REQUESTER_PREFIX|..] == b;
  }

  lemma ThenLost()
    ensures Run(Unowned(), LOSE) == Lost()
  {
    ThreeMoves(Unowned(), LOSE[0], LOSE[1], LOSE[2]);
    assert "a"[0] != "b"[0];
    ReleasesDiffer("a", "b");
    var s1 := Next(Unowned(), LOSE[0]);
    assert s1.procs == map[1 := Running(Owning(Mine())), 2 := Proc(Primer("b"), Observing)];
    var s2 := Next(s1, LOSE[1]);
    assert s2.procs == map[1 := Running(Owning(Mine())), 2 := Proc(Primer("b"), Rereading)];
    assert s2.slot == Lost().slot && s2.closer == Lost().closer;
    assert Next(s2, LOSE[2]).procs == Lost().procs;
  }

  /** Between claiming and owning, a claim has no live owner yet: a primer of another release
      closes it, the runner works on regardless, and its successful finish is rejected. */
  lemma ClaimCanBeLostBeforeItIsOwned()
    ensures
      var s := Run(Run(Start(None, Absent, {}), CLAIM), LOSE);
      && 1 in s.procs && s.procs[1].phase.Working? && s.procs[1].phase.claimed.id == "r"
      && s.slot.Some? && s.slot.value.id == "r" && s.slot.value.state.Failed?
      && var t := Next(s, Step(1, IDLE.(succeeded := true)));
         && t.slot == s.slot && t.lease == Lease("r", 1) && 1 !in t.procs
  {
    ClaimedFirst();
    ThenLost();
  }
}
