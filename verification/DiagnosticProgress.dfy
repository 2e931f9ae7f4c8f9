/**
  Progress records of the diagnostic request (operations/manual_cio_diagnostic.py) in two
  steps, a reading and a writing, since the slot file is replaced without a lock.  Everything
  else moves as in DiagnosticInterleaving, between the two as well.
*/
module DiagnosticProgress {
  import opened Options
  import opened DiagnosticCoordination
  import D = DiagnosticInterleaving

  /** The requests in progress that processes have read and are about to write back. */
  datatype System = System(base: D.System, readings: map<Pid, Ticket>)

  datatype Move = Other(move: D.Move) | ReadProgress(pid: Pid) | WriteProgress(pid: Pid, cycle: string)

  /** A process takes no other step between its reading and its writing. */
  function Next(s: System, m: Move): System
  {
    match m
    case Other(move) =>
      if move.Progress? || (move.Step? && move.pid in s.readings) then s
      else System(D.Next(s.base, move), if move.Die? then s.readings - {move.pid} else s.readings)
    case ReadProgress(pid) =>
      if pid in s.base.procs && s.base.procs[pid].phase.Working? && D.Runs(s.base.slot)
      then s.(readings := s.readings[pid := s.base.slot.value]) else s
    case WriteProgress(pid, cycle) =>
      if pid !in s.readings then s
      else System(s.base.(slot := Progressed(Some(s.readings[pid]), cycle)), s.readings - {pid})
  }

  function Run(s: System, moves: seq<Move>): System
    decreases |moves|
  {
    if moves == [] then s else Run(Next(s, moves[0]), moves[1..])
  }

  function Start(slot: Slot, lease: LeaseFile, alive: set<Pid>): System { System(D.Start(slot, lease, alive), map[]) }

  // ---------------------------------------------------------------- how the slot changes

  /** A move other than progress keeps the request, and a verdict unchanged, or puts a request
      with a new identifier in its place. */
  predicate Follows(s: D.System, t: D.System)
  {
    && s.ids <= t.ids
    && (t.slot.Some? ==>
          || (s.slot.Some? && t.slot.value.id == s.slot.value.id && (s.slot.value.Terminal() ==> t.slot == s.slot))
          || (t.slot.value.id !in s.ids && t.slot.value.id in t.ids))
  }

  lemma EntryFollows(s: D.System, pid: Pid)
    requires pid in s.procs
    ensures Follows(s, D.Decide(s, pid)) && Follows(s, D.Recheck(s, pid))
  {
  }

  lemma RequestFollows(s: D.System, pid: Pid, c: D.Choice)
    requires pid in s.procs
    ensures Follows(s, D.RequestStep(s, pid, c))
  {
  }

  lemma ObserveFollows(s: D.System, pid: Pid)
    requires pid in s.procs
    ensures Follows(s, D.Observe(s, pid))
  {
    EntryFollows(s, pid);
  }

  lemma ClaimFollows(s: D.System, pid: Pid)
    requires pid in s.procs
    ensures Follows(s, D.ClaimStep(s, pid))
  {
  }

  lemma CloseFollows(s: D.System, pid: Pid, c: D.Choice)
    requires pid in s.procs && (s.procs[pid].phase.Working? || s.procs[pid].phase.Closing?)
    ensures Follows(s, D.FinishStep(s, pid, c))
  {
  }

  lemma LeaseFollows(s: D.System, pid: Pid, c: D.Choice)
    requires pid in s.procs
    ensures s.procs[pid].phase.Owning? ==> Follows(s, D.OwnStep(s, pid, c))
    ensures s.procs[pid].phase.Releasing? ==> Follows(s, D.ReleaseStep(s, pid, c))
  {
  }

  lemma OtherFollows(s: D.System, m: D.Move)
    requires !m.Progress?
    ensures Follows(s, D.Next(s, m))
  {
    if m.Step? && m.pid in s.procs {
      match s.procs[m.pid].phase
      case Observing => ObserveFollows(s, m.pid);
      case Requesting => RequestFollows(s, m.pid, m.choice);
      case Handing => RequestFollows(s, m.pid, m.choice);
      case Rereading => EntryFollows(s, m.pid);
      case Rechecking => EntryFollows(s, m.pid);
      case Claiming => ClaimFollows(s, m.pid);
      case Superseding(_) => ClaimFollows(s, m.pid);
      case Working(_) => CloseFollows(s, m.pid, m.choice);
      case Closing(_) => CloseFollows(s, m.pid, m.choice);
      case _ => LeaseFollows(s, m.pid, m.choice);
    }
  }

  // ---------------------------------------------------------------- when a verdict is final

  /** Identifiers in the slot and in readings are used up; readings are of requests in progress. */
  predicate Known(s: System)
  {
    && (s.base.slot.Some? ==> s.base.slot.value.id in s.base.ids)
    && (forall p | p in s.readings :: s.readings[p].state.InProgress? && s.readings[p].id in s.base.ids)
  }

  predicate ReadBy(s: System, p: Pid, id: string) { p in s.readings && s.readings[p].id == id }

  ghost predicate Unread(s: System, id: string) { forall p :: !ReadBy(s, p, id) }

  /** The verdict stands, as long as its request is in the slot; nobody holds an old reading. */
  ghost predicate Standing(s: System, verdict: Ticket)
  {
    && verdict.id in s.base.ids
    && (s.base.slot.Some? && s.base.slot.value.id == verdict.id ==> s.base.slot.value == verdict)
    && Unread(s, verdict.id)
  }

  lemma NextKeepsKnown(s: System, m: Move)
    requires Known(s)
    ensures Known(Next(s, m))
  {
    if m.Other? && !m.move.Progress? {
      OtherFollows(s.base, m.move);
    }
  }

  lemma {:induction false} RunKeepsKnown(s: System, moves: seq<Move>)
    requires Known(s)
    ensures Known(Run(s, moves))
    decreases |moves|
  {
    if moves != [] {
      NextKeepsKnown(s, moves[0]);
      RunKeepsKnown(Next(s, moves[0]), moves[1..]);
    }
  }

  lemma NextKeepsStanding(s: System, m: Move, verdict: Ticket)
    requires Standing(s, verdict) && verdict.Terminal()
    ensures Standing(Next(s, m), verdict)
  {
    if m.Other? && !m.move.Progress? {
      OtherFollows(s.base, m.move);
    }
    var t := Next(s, m);
    forall p
      ensures !ReadBy(t, p, verdict.id)
    {
      assert !ReadBy(s, p, verdict.id);
    }
    if m.WriteProgress? {
      assert !ReadBy(s, m.pid, verdict.id);
    }
  }

  lemma {:induction false} RunKeepsStanding(s: System, moves: seq<Move>, verdict: Ticket)
    requires Standing(s, verdict) && verdict.Terminal()
    ensures Standing(Run(s, moves), verdict)
    decreases |moves|
  {
    if moves != [] {
      NextKeepsStanding(s, moves[0], verdict);
      RunKeepsStanding(Next(s, moves[0]), moves[1..], verdict);
    }
  }

  /** The slot shows this verdict, or another request. */
  predicate Shows(s: System, verdict: Ticket)
  {
    s.base.slot.Some? && s.base.slot.value.id == verdict.id ==> s.base.slot.value == verdict
  }

  ghost predicate Final(s: System, verdict: Ticket) { forall moves :: Shows(Run(s, moves), verdict) }

  /** In any reachable state with a verdict in the slot: the verdict stands in every
      continuation exactly when no process holds a reading of the request from when it was
      still in progress. */
  lemma VerdictIsFinalIff(slot: Slot, lease: LeaseFile, alive: set<Pid>, before: seq<Move>)
    requires
      var s := Run(Start(slot, lease, alive), before);
      s.base.slot.Some? && s.base.slot.value.Terminal()
    ensures
      var s := Run(Start(slot, lease, alive), before);
      var verdict := s.base.slot.value;
      Final(s, verdict) <==> Unread(s, verdict.id)
  {
    RunKeepsKnown(Start(slot, lease, alive), before);
    var s := Run(Start(slot, lease, alive), before);
    var verdict := s.base.slot.value;
    if !Unread(s, verdict.id) {
      var p :| ReadBy(s, p, verdict.id);
      var moves := [WriteProgress(p, "")];
      assert moves[1..] == [];
      assert Run(s, moves) == Next(s, moves[0]);
      assert !Shows(Run(s, moves), verdict);
    } else {
      assert Standing(s, verdict);
      forall moves
        ensures Shows(Run(s, moves), verdict)
      {
        RunKeepsStanding(s, moves, verdict);
      }
    }
  }

  // ---------------------------------------------------------------- a run in which a verdict is lost

  ghost predicate Reaches(s: System, t: System) { exists moves :: Run(s, moves) == t }

  lemma {:induction false} RunJoins(s: System, a: seq<Move>, b: seq<Move>)
    ensures Run(s, a + b) == Run(Run(s, a), b)
    decreases |a|
  {
    if a == [] {
      assert a + b == b;
    } else {
      assert (a + b)[0] == a[0] && (a + b)[1..] == a[1..] + b;
      var t := Next(s, a[0]);
      RunJoins(t, a[1..], b);
      assert Run(s, a + b) == Run(t, a[1..] + b);
    }
  }

  lemma ThenMove(s: System, t: System, m: Move)
    requires Reaches(s, t)
    ensures Reaches(s, Next(t, m))
  {
    var moves :| Run(s, moves) == t;
    RunJoins(s, moves, [m]);
    assert [m][1..] == [];
    assert Run(t, [m]) == Next(t, m);
  }

  /** Without readings, the other moves are those of the one-step model. */
  lemma {:induction false} OthersReach(o: System, s: D.System, moves: seq<D.Move>)
    requires Reaches(o, System(s, map[])) && forall i | 0 <= i < |moves| :: !moves[i].Progress?
    ensures Reaches(o, System(D.Run(s, moves), map[]))
    decreases |moves|
  {
    if moves != [] {
      ThenMove(o, System(s, map[]), Other(moves[0]));
      OthersReach(o, D.Next(s, moves[0]), moves[1..]);
    }
  }

  function N(): Ticket { NewTicket("n", Requester("b")) }

  /** Runner 1 works on although its claim was closed; runner 3 has claimed request "n" of
      release "b", and no lease. */
  function Claimed3(): D.System
  {
    D.Lost().(slot := Some(Claimed(N())), alive := {1, 2, 3}, ids := {"r", "n"},
              procs := map[1 := D.Running(D.Working(D.Mine())), 3 := D.Proc(D.Runner("b", false), D.Owning(Claimed(N())))],
              claimer := map["r" := 1, "n" := 3], replaced := [Finished(D.Mine(), false, "", "")], exits := map[2 := Code(0)])
  }

  const ASK := D.IDLE.(freshId := "n")

  lemma PrimerHandsN()
    ensures
      var s := D.Next(D.Next(D.Lost(), D.Step(2, ASK)), D.Step(2, ASK));
      s == D.Lost().(slot := Some(N()), ids := {"r", "n"}, procs := map[1 := D.Running(D.Working(D.Mine()))],
                     replaced := [Finished(D.Mine(), false, "", "")], exits := map[2 := Code(0)])
  {
    assert "a"[0] != "b"[0] && "r"[0] != "n"[0];
    D.ReleasesDiffer("a", "b");
    var s1 := D.Next(D.Lost(), D.Step(2, ASK));
    assert s1.procs == map[1 := D.Running(D.Working(D.Mine())), 2 := D.Proc(D.Primer("b"), D.Handing)];
    assert D.Next(s1, D.Step(2, ASK)).procs == map[1 := D.Running(D.Working(D.Mine()))];
  }

  lemma RunnerClaimsN(s: D.System)
    requires s == D.Lost().(slot := Some(N()), ids := {"r", "n"}, procs := map[1 := D.Running(D.Working(D.Mine()))],
                            replaced := [Finished(D.Mine(), false, "", "")], exits := map[2 := Code(0)])
    ensures D.Run(s, [D.Spawn(3, D.Runner("b", false)), D.Step(3, ASK), D.Step(3, ASK), D.Step(3, ASK)]) == Claimed3()
  {
    D.FourMoves(s, D.Spawn(3, D.Runner("b", false)), D.Step(3, ASK), D.Step(3, ASK), D.Step(3, ASK));
    var working, runner := D.Running(D.Working(D.Mine())), D.Runner("b", false);
    var s1 := D.Next(s, D.Spawn(3, runner));
    assert s1 == s.(alive := {1, 2, 3}, procs := map[1 := working, 3 := D.Proc(runner, D.Observing)]);
    var s2 := D.Next(s1, D.Step(3, ASK));
    assert s2 == s1.(procs := map[1 := working, 3 := D.Proc(runner, D.Requesting)]);
    var s3 := D.Next(s2, D.Step(3, ASK));
    assert s3 == s1.(procs := map[1 := working, 3 := D.Proc(runner, D.Claiming)]);
    assert D.Next(s3, D.Step(3, ASK)).procs == Claimed3().procs;
  }

  /** Everything up to the claim of "n". */
  lemma ClaimedNIsReached()
    ensures Reaches(Start(None, Absent, {}), System(Claimed3(), map[]))
  {
    var o := Start(None, Absent, {});
    assert Run(o, []) == o;
    D.ClaimedFirst();
    D.ThenLost();
    OthersReach(o, o.base, D.CLAIM);
    OthersReach(o, D.Unowned(), D.LOSE);
    PrimerHandsN();
    ThenMove(o, System(D.Lost(), map[]), Other(D.Step(2, ASK)));
    var s := D.Next(D.Lost(), D.Step(2, ASK));
    ThenMove(o, System(s, map[]), Other(D.Step(2, ASK)));
    var t := D.Next(s, D.Step(2, ASK));
    RunnerClaimsN(t);
    OthersReach(o, t, [D.Spawn(3, D.Runner("b", false)), D.Step(3, ASK), D.Step(3, ASK), D.Step(3, ASK)]);
  }

  /** Runner 1 reads request "n" in progress; a primer finds "n" without an owner and closes it. */
  lemma ReadThenClosed(o: System) returns (t: System)
    requires Reaches(o, System(Claimed3(), map[]))
    ensures Reaches(o, t) && t.readings == map[1 := Claimed(N())]
    ensures t.base.slot == Some(Finished(Claimed(N()), false, "", ""))
  {
    assert "b"[0] != "c"[0] && "r"[0] != "n"[0];
    D.ReleasesDiffer("b", "c");
    ThenMove(o, System(Claimed3(), map[]), ReadProgress(1));
    var s := System(Claimed3(), map[1 := Claimed(N())]);
    assert Next(System(Claimed3(), map[]), ReadProgress(1)) == s;
    ThenMove(o, s, Other(D.Spawn(4, D.Primer("c"))));
    t := Next(s, Other(D.Spawn(4, D.Primer("c"))));
    assert t.base.procs[4] == D.Proc(D.Primer("c"), D.Observing) && t.base.slot == Some(Claimed(N()));
    ThenMove(o, t, Other(D.Step(4, D.IDLE)));
    t := Next(t, Other(D.Step(4, D.IDLE)));
  }

  /** A verdict is lost: the progress record read before it is written after it. */
  lemma ProgressErasesVerdict() returns (closed: System, erased: System)
    ensures Reaches(Start(None, Absent, {}), closed) && closed.base.slot.Some? && closed.base.slot.value.state.Failed?
    ensures erased == Next(closed, WriteProgress(1, "")) && D.Runs(erased.base.slot)
    ensures erased.base.slot.value.id == closed.base.slot.value.id
  {
    ClaimedNIsReached();
    closed := ReadThenClosed(Start(None, Absent, {}));
    erased := Next(closed, WriteProgress(1, ""));
  }
}
