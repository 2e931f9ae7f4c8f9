/**
  Release diagnostic coordination: the single-slot request file
  (operations/manual_cio_diagnostic.py), the process owner lease and the runner
  (_manual_cio_diagnostic_core.py) and the release primer (prime_release_cio_diagnostic.py).

  Texts are trimmed; "" is an absent cycle key or snapshot identifier.  Whether a process is
  alive, which request identifier is fresh, and how the diagnostic's work ends are inputs.
*/
module DiagnosticCoordination {
  import opened Options

  datatype State = Pending | InProgress | Completed | Failed

  datatype Ticket = Ticket(id: string, requester: string, state: State, cycle: string, snapshot: string)
  {
    predicate Terminal() { state.Completed? || state.Failed? }
  }

  type Slot = Option<Ticket>
  type Pid = nat

  datatype LeaseFile = Absent | Unreadable | Lease(request: string, pid: Pid)

  const REQUESTER_PREFIX := "render-release:"

  function Requester(release: string): string { REQUESTER_PREFIX + release }

  // ---------------------------------------------------------------- the slot

  predicate Busy(slot: Slot) { slot.Some? && !slot.value.Terminal() }

  function NewTicket(id: string, requester: string): Ticket { Ticket(id, requester, Pending, "", "") }

  function Claimed(t: Ticket): Ticket { t.(state := InProgress) }

  /** `finish`: only the current in-progress request can be closed, and a cycle already bound
      to it cannot be rebound. */
  predicate Finishable(slot: Slot, mine: Ticket, cycle: string)
  {
    && mine.state.InProgress?
    && slot.Some? && slot.value.id == mine.id && slot.value.state.InProgress?
    && (slot.value.cycle != "" && cycle != "" ==> slot.value.cycle == cycle)
  }

  function Finished(t: Ticket, succeeded: bool, cycle: string, snapshot: string): Ticket
  {
    t.(state := if succeeded then Completed else Failed,
       cycle := if cycle != "" then cycle else t.cycle,
       snapshot := if snapshot != "" then snapshot else t.snapshot)
  }

  class DiagnosticStore {
    var slot: Slot

    constructor (existing: Slot)
      ensures slot == existing
    {
      slot := existing;
    }

    method Request(requester: string, freshId: string) returns (t: Ticket, created: bool)
      modifies this
      ensures created <==> !Busy(old(slot))
      ensures created ==> t == NewTicket(freshId, requester) && slot == Some(t)
      ensures !created ==> slot == old(slot) && slot == Some(t)
    {
      if slot.Some? && (slot.value.state.Pending? || slot.value.state.InProgress?) {
        return slot.value, false;
      }
      t := Ticket(freshId, requester, Pending, "", "");
      slot := Some(t);
      return t, true;
    }

    method Claim() returns (t: Option<Ticket>)
      modifies this
      ensures t.Some? <==> old(slot).Some? && old(slot).value.state.Pending?
      ensures t.Some? ==> t.value == Claimed(old(slot).value) && slot == t
      ensures t.None? ==> slot == old(slot)
    {
      if slot.None? || !slot.value.state.Pending? {
        return None;
      }
      t := Some(slot.value.(state := InProgress));
      slot := t;
    }

    method Finish(mine: Ticket, succeeded: bool, cycle: string, snapshot: string) returns (ok: bool)
      modifies this
      ensures ok <==> Finishable(old(slot), mine, cycle)
      ensures ok ==> slot == Some(Finished(old(slot).value, succeeded, cycle, snapshot))
      ensures !ok ==> slot == old(slot)
    {
      if !mine.state.InProgress? {
        return false;
      }
      if slot.None? || slot.value.id != mine.id || !slot.value.state.InProgress? {
        return false;
      }
      var latest := slot.value;
      if latest.cycle != "" && cycle != "" && latest.cycle != cycle {
        return false;
      }
      var boundCycle := if cycle == "" then latest.cycle else cycle;
      var boundSnapshot := if snapshot == "" then latest.snapshot else snapshot;
      slot := Some(latest.(state := if succeeded then Completed else Failed,
                           cycle := boundCycle, snapshot := boundSnapshot));
      return true;
    }
  }

  // ---------------------------------------------------------------- the owner lease

  predicate ActiveOwner(file: LeaseFile, alive: set<Pid>, request: string)
  {
    file.Lease? && file.request == request && 0 < file.pid && file.pid in alive
  }

  predicate LiveLease(file: LeaseFile, alive: set<Pid>)
  {
    file.Lease? && 0 < file.pid && file.pid in alive
  }

  /** Acquisition succeeds over nothing, or over a removable file that no live process holds. */
  predicate Acquirable(file: LeaseFile, alive: set<Pid>, removable: bool)
  {
    file.Absent? || (!LiveLease(file, alive) && removable)
  }

  class OwnerLease {
    var file: LeaseFile

    constructor (existing: LeaseFile)
      ensures file == existing
    {
      file := existing;
    }

    method Acquire(request: string, pid: Pid, alive: set<Pid>, removable: bool) returns (ok: bool)
      modifies this
      ensures ok <==> Acquirable(old(file), alive, removable)
      ensures file == if ok then Lease(request, pid) else old(file)
    {
      for attempt := 0 to 2
        invariant attempt == 0 ==> file == old(file)
        invariant attempt == 1 ==> file.Absent? && Acquirable(old(file), alive, removable)
        invariant attempt < 2
      {
        if file.Absent? {
          file := Lease(request, pid);
          return true;
        }
        if file.Lease? && 0 < file.pid && file.pid in alive {
          return false;
        }
        if !removable {
          return false;
        }
        file := Absent;
      }
      return false;
    }

    method Release(request: string, pid: Pid)
      modifies this
      ensures file == if old(file) == Lease(request, pid) then Absent else old(file)
    {
      if file.Lease? && file.request == request && file.pid == pid {
        file := Absent;
      }
    }
  }

  // ---------------------------------------------------------------- the calls of the guarded section

  /** How a call ends.  `Interrupts` is an exit that `except Exception` does not catch. */
  datatype End = Returns | Raises | Interrupts

  /** Calls made one after the other, until one does not return. */
  function Through(calls: seq<End>): End
  {
    if calls == [] then Returns else if calls[0].Returns? then Through(calls[1..]) else calls[0]
  }

  predicate AllReturn(calls: seq<End>) { forall i | 0 <= i < |calls| :: calls[i].Returns? }

  /** How each call of the section ends, were it made, and what the two results hold.
      `measured` is the memory record after the context; `noted` and `logged` are the log
      entries of the inner and the outer handler. */
  datatype Work = Work(
    preparation: seq<End>, cycle: string, ready: bool, measured: End,
    initialization: seq<End>, run: End, dispatch: End, snapshot: string, completed: bool,
    boundary: seq<End>, implementation: seq<End>, noted: End, closing: seq<End>,
    logged: End, epilogue: seq<End>)

  /** The inner try: an exception of the implementation is only noted. */
  function Implementation(w: Work): End
  {
    if Through(w.implementation).Raises? then w.noted else Through(w.implementation)
  }

  /** The calls of the outer try, in order. */
  function Calls(w: Work): seq<End>
  {
    w.preparation + [w.measured]
    + if !w.ready then [] else
        w.initialization + [w.run, w.dispatch]
        + if !w.completed then [] else w.boundary + [Implementation(w)] + w.closing
  }

  /** How the section is left, when closing its claim succeeds. */
  function LeftBy(w: Work): End
  {
    if Through(Calls(w)).Raises? then w.logged else Through(Calls(w))
  }

  /** The context was prepared, the cycle ran and its dispatch returned. */
  predicate Dispatched(w: Work)
  {
    && AllReturn(w.preparation) && w.measured.Returns? && w.ready
    && AllReturn(w.initialization) && w.run.Returns? && w.dispatch.Returns?
  }

  predicate Certified(w: Work) { Dispatched(w) && w.completed }

  function BoundCycle(w: Work): string { if AllReturn(w.preparation) then w.cycle else "" }

  function BoundSnapshot(w: Work): string { if Dispatched(w) then w.snapshot else "" }

  /** What the closing detail says. */
  datatype Detail = Silent | OfContext | OfResult | OfImplementation | OfPendingImplementation | OfError

  lemma {:induction false} ThroughReturnsIff(calls: seq<End>)
    ensures Through(calls).Returns? <==> AllReturn(calls)
  {
    if calls != [] {
      ThroughReturnsIff(calls[1..]);
      assert AllReturn(calls) <==> calls[0].Returns? && AllReturn(calls[1..]) by {
        assert forall i | 1 <= i < |calls| :: calls[i] == calls[1..][i - 1];
      }
    }
  }

  /** The end of a sequence of calls is that of its first call that does not return. */
  lemma {:induction false} ThroughIsFirstFailure(calls: seq<End>, k: nat)
    requires k < |calls| && calls[k] != Returns && forall i | 0 <= i < k :: calls[i] == Returns
    ensures Through(calls) == calls[k]
  {
    if k > 0 {
      assert forall i | 0 <= i < k - 1 :: calls[1..][i] == calls[i + 1];
      ThroughIsFirstFailure(calls[1..], k - 1);
    }
  }

  lemma {:induction false} ThroughJoined(a: seq<End>, b: seq<End>)
    ensures Through(a + b) == if Through(a).Returns? then Through(b) else Through(a)
  {
    if a == [] {
      assert a + b == b;
    } else {
      ThroughJoined(a[1..], b);
      assert (a + b)[1..] == a[1..] + b;
    }
  }

  /** Exit code of a run, or the exception that leaves it. */
  datatype Exit = Code(code: int) | Raised

  // ---------------------------------------------------------------- the runner in one step

  datatype Coordinated = Coordinated(exit: Exit, claimed: Option<Ticket>, slot: Slot, file: LeaseFile)

  /** Requesting, claiming and owning, once nothing of a live owner is in progress. */
  function TakeUp(slot: Slot, file: LeaseFile, me: string, pid: Pid, alive: set<Pid>, removable: bool, freshId: string)
    : Coordinated
  {
    if Busy(slot) && (slot.value.requester != me || slot.value.state.InProgress?) then Coordinated(Code(3), None, slot, file)
    else
      var mine := Claimed(if Busy(slot) then slot.value else NewTicket(freshId, me));
      if Acquirable(file, alive, removable) then Coordinated(Code(0), Some(mine), Some(mine), Lease(mine.id, pid))
      else Coordinated(Code(3), None, Some(mine), file)
  }

  /** A run up to its guarded section, from what it finds. */
  function CoordinatedFrom(slot: Slot, file: LeaseFile, active: bool, force: bool, me: string, pid: Pid,
                           alive: set<Pid>, removable: bool, freshId: string): Coordinated
  {
    if !active then Coordinated(Code(0), None, slot, file)
    else if slot.Some? && slot.value.state.InProgress? then
      if ActiveOwner(file, alive, slot.value.id) then Coordinated(Code(3), None, slot, file)
      else TakeUp(Some(Finished(slot.value, false, slot.value.cycle, slot.value.snapshot)), file, me, pid, alive, removable, freshId)
    else if !force && slot.Some? && slot.value.requester == me && slot.value.Terminal()
    then Coordinated(Code(0), None, slot, file)
    else TakeUp(slot, file, me, pid, alive, removable, freshId)
  }

  // ---------------------------------------------------------------- what the programs may find

  predicate HeldAlive(file: LeaseFile, alive: set<Pid>) { file.Lease? && file.pid != 0 && file.pid in alive }

  /** A request in progress whose exact lease a live process holds. */
  predicate AtWork(slot: Slot, file: LeaseFile, alive: set<Pid>)
  {
    slot.Some? && slot.value.state == InProgress && HeldAlive(file, alive) && file.request == slot.value.id
  }

  /** The release's own request has ended. */
  predicate Settled(slot: Slot, me: string)
  {
    slot.Some? && slot.value.requester == me && (slot.value.state == Completed || slot.value.state == Failed)
  }

  /** Another release's request waits for its runner. */
  predicate Waiting(slot: Slot, me: string) { slot.Some? && slot.value.requester != me && slot.value.state == Pending }

  // ---------------------------------------------------------------- the programs

  class Coordinator {
    const store: DiagnosticStore
    const lease: OwnerLease

    constructor (store: DiagnosticStore, lease: OwnerLease)
      ensures this.store == store && this.lease == lease
    {
      this.store, this.lease := store, lease;
    }

    /** The primer, run with nobody else moving. */
    method Prime(enabled: bool, release: string, alive: set<Pid>, freshId: string) returns (exit: Exit)
      modifies store
      ensures exit == Code(0)
      ensures store.slot == if enabled then Primed(old(store.slot), lease.file, alive, Requester(release), freshId)
                            else old(store.slot)
      // An own request stays, as does a request at work under its live owner; anything else
      // gives way to a fresh request of the release.
      ensures
        var was := old(store.slot);
        var mine := was.Some? && was.value.requester == "render-release:" + release;
        store.slot == if !enabled || mine || AtWork(was, lease.file, alive) then was
                      else Some(Ticket(freshId, "render-release:" + release, Pending, "", ""))
    {
      if !enabled {
        return Code(0);
      }
      var requester := REQUESTER_PREFIX + release;
      var existing := store.slot;
      if existing.Some? && existing.value.state.InProgress? {
        if existing.value.requester == requester {
          return Code(0);
        }
        if ActiveOwner(lease.file, alive, existing.value.id) {
          return Code(0);
        }
        var ok := store.Finish(existing.value, false, existing.value.cycle, existing.value.snapshot);
        if !ok {
          return Raised;
        }
        existing := store.slot;
      }
      if existing.Some? && existing.value.state.Pending? && existing.value.requester == requester {
        return Code(0);
      }
      if existing.Some? && existing.value.state.Pending? && existing.value.requester != requester {
        var claimed := store.Claim();
        if claimed.None? || claimed.value.id != existing.value.id {
          return Raised;
        }
        var ok := store.Finish(claimed.value, false, "", "");
        if !ok {
          return Raised;
        }
        existing := store.slot;
      }
      if existing.Some? && existing.value.requester == requester && existing.value.Terminal() {
        return Code(0);
      }
      var request, created := store.Request(requester, freshId);
      if !created && request.requester != requester {
        return Raised;
      }
      return Code(0);
    }

    /** The runner up to its lease: recover an ownerless request, request, claim, own. */
    method Coordinate(enabled: bool, force: bool, release: string, pid: Pid, alive: set<Pid>,
                      removable: bool, freshId: string)
      returns (exit: Exit, claimed: Option<Ticket>)
      modifies store, lease
      ensures Coordinated(exit, claimed, store.slot, lease.file)
           == CoordinatedFrom(old(store.slot), old(lease.file), enabled || force, force, Requester(release),
                              pid, alive, removable, freshId)
      // A runner that is off, or finds its release's work done, touches nothing and exits 0.
      // One that finds a request at work under its live owner, or another release's request
      // pending, touches nothing and exits 3.
      ensures
        var was := old(store.slot);
        var off := !enabled && !force;
        var settled := !force && Settled(was, "render-release:" + release);
        var taken := AtWork(was, old(lease.file), alive) || Waiting(was, "render-release:" + release);
        off || settled || taken ==>
          && store.slot == was && lease.file == old(lease.file) && claimed.None?
          && exit == Code(if off || settled then 0 else 3)
      // Any other claims its release's pending request, or else a fresh one, an ownerless
      // request at work included; it enters with the lease if nobody alive holds it.
      ensures
        var was, me := old(store.slot), "render-release:" + release;
        var mine := if was.Some? && was.value.state == Pending && was.value.requester == me then was.value.(state := InProgress)
                    else Ticket(freshId, me, InProgress, "", "");
        var free := old(lease.file) == Absent || (removable && !HeldAlive(old(lease.file), alive));
        (enabled || force) && !(!force && Settled(was, me)) && !AtWork(was, old(lease.file), alive) && !Waiting(was, me) ==>
          && store.slot == Some(mine)
          && exit == Code(if free then 0 else 3)
          && claimed == (if free then Some(mine) else None)
          && lease.file == (if free then Lease(mine.id, pid) else old(lease.file))
    {
      claimed := None;
      if !enabled && !force {
        return Code(0), None;
      }
      var requester := REQUESTER_PREFIX + release;
      var existing := store.slot;
      var recovered := false;
      if existing.Some? && existing.value.state.InProgress? {
        if ActiveOwner(lease.file, alive, existing.value.id) {
          return Code(3), None;
        }
        recovered := true;
        var ok := store.Finish(existing.value, false, existing.value.cycle, existing.value.snapshot);
        if !ok {
          return Raised, None;
        }
        existing := store.slot;
      }
      if !force && !recovered && existing.Some? && existing.value.requester == requester && existing.value.Terminal() {
        return Code(0), None;
      }
      var request, created := store.Request(requester, freshId);
      if !created && request.requester != requester {
        return Code(3), None;
      }
      var ticket := store.Claim();
      if ticket.None? {
        return Code(3), None;
      }
      var owned := lease.Acquire(ticket.value.id, pid, alive, removable);
      if !owned {
        return Code(3), None;
      }
      return Code(0), ticket;
    }

    /** The try block and its handlers: how the section is left, before its claim is closed. */
    method RunSection(w: Work) returns (flow: End, detail: Detail, cycle: string, snapshot: string, succeeded: bool)
      ensures flow == LeftBy(w)
      ensures succeeded == Certified(w) && cycle == BoundCycle(w) && snapshot == BoundSnapshot(w)
      ensures detail.OfError? <==> Through(Calls(w)).Raises?
      ensures
        Through(Calls(w)).Returns? ==>
          detail == if !w.ready then OfContext else if !w.completed then OfResult
                    else if AllReturn(w.implementation) then OfImplementation else OfPendingImplementation
    {
      cycle, snapshot, succeeded, detail := "", "", false, Silent;
      JoinedCalls(w);
      label outer: {
        flow := Through(w.preparation);
        if !flow.Returns? {
          break outer;
        }
        cycle := w.cycle;
        flow := w.measured;
        if !flow.Returns? {
          break outer;
        }
        if !w.ready {
          detail := OfContext;
          break outer;
        }
        flow := Through(w.initialization);
        if !flow.Returns? {
          break outer;
        }
        flow := w.run;
        if !flow.Returns? {
          break outer;
        }
        flow := w.dispatch;
        if !flow.Returns? {
          break outer;
        }
        snapshot := w.snapshot;
        detail := OfResult;
        if !w.completed {
          break outer;
        }
        succeeded := true;
        flow := Through(w.boundary);
        if !flow.Returns? {
          break outer;
        }
        flow := Through(w.implementation);
        if flow.Returns? {
          detail := OfImplementation;
        } else if flow.Raises? {
          flow := w.noted;
          if flow.Returns? {
            detail := OfPendingImplementation;
          }
        }
        if !flow.Returns? {
          break outer;
        }
        flow := Through(w.closing);
      }
      if flow.Raises? {
        detail := OfError;
        flow := w.logged;
      }
    }

    /** The guarded section.  `slotThen` and `leaseThen` are what the two files hold when the
        work is over; between the claim and that moment others may have changed them.
        On every path the claim is finished once, as succeeded exactly when the context was
        ready, the cycle completed and its dispatch returned; nothing after that flips it.
        The finish takes effect exactly when the slot still holds the claim with no other
        cycle bound; only then is the lease released, and only the holder's own record. */
    method GuardedSection(claimed: Ticket, pid: Pid, w: Work, slotThen: Slot, leaseThen: LeaseFile)
      returns (exit: Exit, detail: Detail, finishes: nat)
      requires claimed.state.InProgress?
      modifies store, lease
      ensures finishes == 1
      ensures
        var ok := Finishable(slotThen, claimed, BoundCycle(w));
        && store.slot == (if ok then Some(Finished(slotThen.value, Certified(w), BoundCycle(w), BoundSnapshot(w)))
                          else slotThen)
        && lease.file == (if ok && leaseThen == Lease(claimed.id, pid) then Absent else leaseThen)
        && exit == (if ok && LeftBy(w).Returns? && AllReturn(w.epilogue) then Code(if Certified(w) then 0 else 3) else Raised)
      // The finish is accepted for the claim still in progress, without another cycle bound.
      ensures
        var prepared := forall i | 0 <= i < |w.preparation| :: w.preparation[i] == Returns;
        var accepted := && slotThen.Some? && slotThen.value.id == claimed.id && slotThen.value.state == InProgress
                        && (prepared && w.cycle != "" ==> slotThen.value.cycle == "" || slotThen.value.cycle == w.cycle);
        if accepted then
          && store.slot.Some? && store.slot.value.id == claimed.id
          && lease.file == (if leaseThen == Lease(claimed.id, pid) then Absent else leaseThen)
        else store.slot == slotThen && lease.file == leaseThen && exit == Raised
      // An accepted finish records a success, and exit 0 if any, exactly when everything up to
      // the dispatch returned, the context was ready and the cycle completed; it binds the
      // cycle of the prepared context and the snapshot of the dispatched cycle.
      ensures
        var prepared := forall i | 0 <= i < |w.preparation| :: w.preparation[i] == Returns;
        var dispatched := && prepared && w.measured == Returns && w.ready && (forall i | 0 <= i < |w.initialization| :: w.initialization[i] == Returns)
                          && w.run == Returns && w.dispatch == Returns;
        store.slot != slotThen ==>
          && store.slot.Some? && slotThen.Some?
          && store.slot.value.state == (if dispatched && w.completed then Completed else Failed)
          && store.slot.value.cycle == (if prepared && w.cycle != "" then w.cycle else slotThen.value.cycle)
          && store.slot.value.snapshot == (if dispatched && w.snapshot != "" then w.snapshot else slotThen.value.snapshot)
          && store.slot.value.requester == slotThen.value.requester
          && (exit == Raised || exit == Code(if dispatched && w.completed then 0 else 3))
      // The section is left by an exception if its finish was refused, if a call was
      // interrupted, if an exception could not be logged, or if the log entries after it fail.
      ensures
        store.slot != slotThen ==>
          (exit.Code? <==> && (Through(Calls(w)) == Returns || (Through(Calls(w)) == Raises && w.logged == Returns))
                           && forall i | 0 <= i < |w.epilogue| :: w.epilogue[i] == Returns)
      ensures detail.OfError? <==> Through(Calls(w)).Raises?
      ensures
        Through(Calls(w)).Returns? ==>
          detail == if !w.ready then OfContext else if !w.completed then OfResult
                    else if AllReturn(w.implementation) then OfImplementation else OfPendingImplementation
    {
      var flow, cycle, snapshot, succeeded;
      flow, detail, cycle, snapshot, succeeded := RunSection(w);
      VerdictIs(w);
      ThroughReturnsIff(w.epilogue);
      finishes := 0;
      store.slot, lease.file := slotThen, leaseThen;
      var ok := store.Finish(claimed, succeeded, cycle, snapshot);
      finishes := finishes + 1;
      if !ok {
        return Raised, detail, finishes;
      }
      lease.Release(claimed.id, pid);
      if flow.Returns? {
        flow := Through(w.epilogue);
      }
      return if flow.Returns? then Code(if succeeded then 0 else 3) else Raised, detail, finishes;
    }
  }

  /** The verdict, call by call. */
  lemma VerdictIs(w: Work)
    ensures
      var prepared := forall i | 0 <= i < |w.preparation| :: w.preparation[i] == Returns;
      var dispatched := && prepared && w.measured == Returns && w.ready && (forall i | 0 <= i < |w.initialization| :: w.initialization[i] == Returns)
                        && w.run == Returns && w.dispatch == Returns;
      && (Certified(w) <==> dispatched && w.completed)
      && BoundCycle(w) == (if prepared then w.cycle else "")
      && BoundSnapshot(w) == (if dispatched then w.snapshot else "")
  {
  }

  /** The calls of the section, segment by segment. */
  lemma JoinedCalls(w: Work)
    ensures
      var inner := if Through(w.implementation) == Raises then w.noted else Through(w.implementation);
      var implemented := if Through(w.boundary).Returns?
                         then if inner.Returns? then Through(w.closing) else inner
                         else Through(w.boundary);
      var dispatched := if !w.run.Returns? then w.run else if !w.dispatch.Returns? then w.dispatch
                        else if w.completed then implemented else Returns;
      var cycled := if Through(w.initialization).Returns? then dispatched else Through(w.initialization);
      var measured := if !w.measured.Returns? then w.measured else if w.ready then cycled else Returns;
      Through(Calls(w)) == if Through(w.preparation).Returns? then measured else Through(w.preparation)
    ensures Through(w.preparation).Returns? <==> AllReturn(w.preparation)
    ensures Through(w.initialization).Returns? <==> AllReturn(w.initialization)
    ensures Through(w.epilogue).Returns? <==> AllReturn(w.epilogue)
    ensures Through(w.implementation).Returns? <==> AllReturn(w.implementation)
  {
    ThroughReturnsIff(w.implementation);
    ThroughReturnsIff(w.preparation);
    ThroughReturnsIff(w.initialization);
    ThroughReturnsIff(w.epilogue);
    var inside := [Implementation(w)] + w.closing;
    ThroughJoined(w.boundary, inside);
    ThroughJoined([Implementation(w)], w.closing);
    var after := if !w.completed then [] else w.boundary + inside;
    ThroughJoined(w.initialization, [w.run, w.dispatch] + after);
    ThroughJoined([w.run, w.dispatch], after);
    var cycle := if !w.ready then [] else w.initialization + ([w.run, w.dispatch] + after);
    ThroughJoined(w.preparation, [w.measured] + cycle);
    ThroughJoined([w.measured], cycle);
    assert w.boundary + inside == w.boundary + [Implementation(w)] + w.closing;
    assert w.initialization + ([w.run, w.dispatch] + after) == w.initialization + [w.run, w.dispatch] + after;
    assert Calls(w) == w.preparation + ([w.measured] + cycle);
  }

  /** The verdict does not depend on anything after the dispatch; and exactly the calls after
      it can give a success the detail of an error, or let it leave by an exception. */
  lemma NothingFlipsTheVerdict(w: Work, boundary: seq<End>, implementation: seq<End>, noted: End, closing: seq<End>,
                               logged: End, epilogue: seq<End>)
    ensures
      var v := w.(boundary := boundary, implementation := implementation, noted := noted, closing := closing,
                  logged := logged, epilogue := epilogue);
      && Certified(v) == Certified(w) && BoundCycle(v) == BoundCycle(w) && BoundSnapshot(v) == BoundSnapshot(w)
      && (Certified(w) ==>
            (Through(Calls(v)).Raises? <==> Through(boundary + [Implementation(v)] + closing).Raises?))
  {
    var v := w.(boundary := boundary, implementation := implementation, noted := noted, closing := closing,
                logged := logged, epilogue := epilogue);
    JoinedCalls(v);
    ThroughJoined(boundary, [Implementation(v)] + closing);
    ThroughJoined([Implementation(v)], closing);
    assert boundary + ([Implementation(v)] + closing) == boundary + [Implementation(v)] + closing;
  }

  /** An exception of the implementation alone never shows: a certified section whose other
      calls return exits 0. */
  lemma ImplementationErrorsStayInside(w: Work)
    requires Certified(w) && AllReturn(w.boundary) && AllReturn(w.closing) && w.noted.Returns?
    ensures LeftBy(w).Returns? <==> !Through(w.implementation).Interrupts?
  {
    JoinedCalls(w);
    ThroughReturnsIff(w.boundary);
    ThroughReturnsIff(w.closing);
  }

  // ---------------------------------------------------------------- what priming promises

  /** The slot after an undisturbed enabled primer. */
  function Primed(slot: Slot, file: LeaseFile, alive: set<Pid>, requester: string, freshId: string): Slot
  {
    if slot.Some? && slot.value.requester == requester then slot
    else if slot.Some? && slot.value.state.InProgress? && ActiveOwner(file, alive, slot.value.id) then slot
    else Some(NewTicket(freshId, requester))
  }

  /** After an enabled primer the latest request belongs to the current release, or is in
      progress under a live prior owner; priming again, with any other fresh identifier,
      leaves the store as it is; and a current-release request is never replaced. */
  lemma PrimingHandsOffAndIsIdempotent(slot: Slot, file: LeaseFile, alive: set<Pid>, release: string, id: string, id': string)
    ensures
      var me := Requester(release);
      var after := Primed(slot, file, alive, me, id);
      && after.Some?
      && (after.value.requester == me
          || (after == slot && after.value.state.InProgress? && ActiveOwner(file, alive, after.value.id)))
      && Primed(after, file, alive, me, id') == after
      && (slot.Some? && slot.value.requester == me ==> after == slot)
      && (Busy(slot) && slot.value.requester != me && !ActiveOwner(file, alive, slot.value.id) ==>
            after == Some(NewTicket(id, me)))
  {
  }

  /** Running the runner again changes nothing when its first run entered the section and is
      still there, whatever the second run is asked: the owner is respected. */
  lemma SecondRunnerIsHeld(slot: Slot, file: LeaseFile, force: bool, me: string, pid: Pid, alive: set<Pid>, removable: bool, id: string,
                           force': bool, me': string, pid': Pid, alive': set<Pid>, removable': bool, id': string)
    requires 0 < pid && pid in alive'
    requires CoordinatedFrom(slot, file, true, force, me, pid, alive, removable, id).claimed.Some?
    ensures
      var first := CoordinatedFrom(slot, file, true, force, me, pid, alive, removable, id);
      CoordinatedFrom(first.slot, first.file, true, force', me', pid', alive', removable', id')
        == Coordinated(Code(3), None, first.slot, first.file)
  {
  }

  /** Priming hands off: after an undisturbed primer, a runner of the same release enters the
      guarded section, or finds its work done, or an owner at work, or cannot take the lease. */
  lemma PrimerThenRunner(slot: Slot, file: LeaseFile, alive: set<Pid>, release: string, id: string,
                         pid: Pid, removable: bool, id': string)
    ensures
      var me := Requester(release);
      var primed := Primed(slot, file, alive, me, id);
      var run := CoordinatedFrom(primed, file, true, false, me, pid, alive, removable, id');
      || (run.claimed.Some? && run.claimed.value.requester == me && run.exit == Code(0))
      || (run.exit == Code(0) && run.slot == primed && primed.value.requester == me && primed.value.Terminal())
      || (run.exit == Code(3) && run.slot == primed && ActiveOwner(file, alive, primed.value.id))
      || (run.exit == Code(3) && !Acquirable(file, alive, removable))
  {
  }

  // ---------------------------------------------------------------- progress

  /** What recording progress writes, from what it read; it may bind a cycle. */
  function Progressed(read: Slot, cycle: string): (r: Slot)
    ensures r.Some? <==> read.Some?
    ensures read.Some? ==> r.value.id == read.value.id && r.value.state == read.value.state
    ensures read.Some? && !(read.value.state == InProgress && read.value.cycle == "") ==> r == read
    ensures read.Some? && read.value.state == InProgress && read.value.cycle == "" ==> r.value == read.value.(cycle := cycle)
  {
    if read.Some? && read.value.state.InProgress? && read.value.cycle == ""
    then Some(read.value.(cycle := cycle)) else read
  }
}
