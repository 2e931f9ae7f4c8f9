/**
  The interleaved steps of PaperInterleaving against the one-step attempt of PaperExecution:
  a worker that moves without being disturbed does exactly what one attempt does.
*/
module PaperRefinement {
  import opened Options
  import opened PaperLease
  import opened PaperApproval
  import E = PaperExecution
  import opened PaperInterleaving

  /** How the runner of an attempt goes: to the end of its executor, or not. */
  datatype Course = Runs(executor: Executor) | Breaks | Leaves

  function CourseMoves(owner: Owner, course: Course): seq<Move>
  {
    match course
    case Runs(executor) => [CheckConsent(owner), ExecutorEnds(owner, executor), Record(owner)]
    case Breaks => [Fails(owner)]
    case Leaves => [Escapes(owner)]
  }

  function Beating(owner: Owner, beats: seq<Beat>): seq<Move>
  {
    seq(|beats|, i requires 0 <= i < |beats| => Heartbeat(owner, beats[i]))
  }

  /** What the runner does to the log and how it exits, when the log is as given. */
  function RunUnder(log: Log, r: E.Request, course: Course): E.Run
    requires E.Acceptable(r)
  {
    match course
    case Breaks => E.Fails([])
    case Leaves => E.Escapes([])
    case Runs(executor) =>
      var consent := Consent(log, r.briefing.value.decision, r.construction.value.id, r.construction.value.sha, r.now);
      if consent.None? || executor.Raises? then E.Exits(4, None, [])
      else if executor.code != 0 then E.Exits(executor.code, None, [])
      else
        var event := ExecutedEvent(consent.value, r.now);
        if Conflicts(log, event) then E.Exits(5, None, []) else E.Exits(0, None, [event])
  }

  function WorldOf(s: System): E.World { E.World(s.log, s.status, s.ledger.rows) }

  function With(s: System, w: Worker): System { s.(workers := s.workers[w.request.owner := w]) }

  // ---------------------------------------------------------------- sequences of moves

  lemma {:induction false} RunJoined(s: System, a: seq<Move>, b: seq<Move>)
    ensures Run(s, a + b) == Run(Run(s, a), b)
    decreases |a|
  {
    if a == [] {
      assert a + b == b;
    } else {
      assert (a + b)[0] == a[0] && (a + b)[1..] == a[1..] + b;
      RunJoined(Next(s, a[0]), a[1..], b);
    }
  }

  predicate MovesOf(moves: seq<Move>, owner: Owner)
  {
    forall i | 0 <= i < |moves| :: !moves[i].Decide? && !moves[i].Arrive? && moves[i].owner == owner
  }

  /** A worker that is gone makes no more moves. */
  lemma {:induction false} GoneIsStill(s: System, moves: seq<Move>, owner: Owner)
    requires owner !in s.workers && MovesOf(moves, owner)
    ensures Run(s, moves) == s
    decreases |moves|
  {
    if moves != [] {
      assert s.workers - {owner} == s.workers;
      assert Next(s, moves[0]) == s;
      GoneIsStill(s, moves[1..], owner);
    }
  }

  // ---------------------------------------------------------------- step by step

  lemma ArrivesAuthorized(s: System, r: E.Request)
    requires Fresh(s, r.owner) && E.Acceptable(r) && E.Authorized(s.log, r)
    ensures Next(Next(s, Arrive(r.owner, r)), Approve(r.owner))
         == With(s, Worker(r, E.AuthorizationOf(s.log, r), Admitted)).(log := E.AuthorizedLog(s.log, r))
  {
    E.AdmitsAuthorized(s.log, r);
    AdmissionInTwoSteps(s.log, r);
    var t := Next(s, Arrive(r.owner, r));
    if WillApprove(s.log, r) {
      assert t == With(s, Worker(r, OwnApproval(r), Authorizing));
    } else {
      assert t == With(s, Worker(r, E.AuthorizationOf(s.log, r), Admitted));
    }
  }

  lemma ArrivesInVain(s: System, r: E.Request)
    requires Fresh(s, r.owner) && !(E.Acceptable(r) && E.Authorized(s.log, r))
    ensures Next(Next(s, Arrive(r.owner, r)), Approve(r.owner))
         == s.(log := if E.Acceptable(r) then E.AuthorizedLog(s.log, r) else s.log)
  {
    if E.Acceptable(r) {
      E.AdmitsAuthorized(s.log, r);
      AdmissionInTwoSteps(s.log, r);
      var t := Next(s, Arrive(r.owner, r));
      if WillApprove(s.log, r) {
        assert t == With(s, Worker(r, OwnApproval(r), Authorizing));
        assert t.workers - {r.owner} == s.workers;
      }
    } else {
      E.GateIsOpenIff(r);
    }
  }

  lemma ReadsStatus(s: System, w: Worker)
    requires w.phase.Admitted? && w.request.owner !in s.workers && w.request.construction.Some?
    ensures
      var r := w.request;
      Next(With(s, w), ReadStatus(r.owner))
        == if E.Clear(s.status, r.construction.value.sha, r.now, E.RetryWindow(r.retry)) then With(s, w.(phase := Cleared)) else s
  {
    assert With(s, w).workers - {w.request.owner} == s.workers;
  }

  lemma TakesLease(s: System, w: Worker)
    requires w.phase.Cleared? && w.request.owner !in s.workers && w.request.construction.Some?
    ensures
      var r := w.request;
      var t := Next(With(s, w), TakeLease(r.owner, r.acquireAt));
      if E.LeaseFree(WorldOf(s), r) then
        var g := E.GrantOf(s.ledger.rows, r, r.construction.value.sha);
        t == With(s, w.(phase := Leased(|s.ledger.issued|, false)))
             .(ledger := Ledger(s.ledger.rows[g.sha := Row(g.owner, g.token, g.expires)], s.ledger.issued + [g]))
      else t == s
  {
    assert With(s, w).workers - {w.request.owner} == s.workers;
  }

  /** The state of a leased worker after its heartbeats, as the maintained lease has it. */
  function Maintaining(s: System, w: Worker, k: nat, m: Maintained): System
  {
    With(s, w.(phase := Leased(k, m.lost))).(ledger := s.ledger.(rows := m.rows))
  }

  lemma BeatsOnce(s: System, w: Worker, k: nat, m: Maintained, beat: Beat)
    requires k < |s.ledger.issued|
    ensures Next(Maintaining(s, w, k, m), Heartbeat(w.request.owner, beat))
         == Maintaining(s, w, k, AfterBeat(m, s.ledger.issued[k], Seconds(w), beat))
  {
  }

  lemma {:induction false} Beats(s: System, w: Worker, k: nat, m: Maintained, beats: seq<Beat>)
    requires k < |s.ledger.issued|
    ensures Run(Maintaining(s, w, k, m), Beating(w.request.owner, beats))
         == Maintaining(s, w, k, AfterBeats(m, s.ledger.issued[k], Seconds(w), beats))
  {
    if beats != [] {
      var n := |beats| - 1;
      var o := w.request.owner;
      Beats(s, w, k, m, beats[..n]);
      assert Beating(o, beats) == Beating(o, beats[..n]) + [Heartbeat(o, beats[n])];
      RunJoined(Maintaining(s, w, k, m), Beating(o, beats[..n]), [Heartbeat(o, beats[n])]);
      BeatsOnce(s, w, k, AfterBeats(m, s.ledger.issued[k], Seconds(w), beats[..n]), beats[n]);
      assert [Heartbeat(o, beats[n])][1..] == [];
    }
  }

  /** What the runner leaves: its exit code for publication, or the closing lease. */
  function AfterCourse(w: Worker, run: E.Run): Worker
    requires w.phase.Leased?
  {
    if run.Escapes? then w.(phase := Closing(w.phase.grant)) else w.(phase := Ran(w.phase.grant, w.phase.lost, E.ExitCode(run)))
  }

  lemma RunnerRefused(s: System, w: Worker, executor: Executor)
    requires w.phase.Leased? && E.Acceptable(w.request) && RunUnder(s.log, w.request, Runs(executor)).Exits?
    requires Consent(s.log, PairOf(w.request).0, PairOf(w.request).1, Sha(w), w.request.now).None?
    ensures
      var o := w.request.owner;
      Next(Next(Next(With(s, w), CheckConsent(o)), ExecutorEnds(o, executor)), Record(o))
        == With(s, AfterCourse(w, RunUnder(s.log, w.request, Runs(executor))))
  {
    assert Next(With(s, w), CheckConsent(w.request.owner)) == With(s, w.(phase := Ran(w.phase.grant, w.phase.lost, 4)));
  }

  /** The approval the runner's consent check finds. */
  function ConsentOf(s: System, w: Worker): Option<Event>
  {
    Consent(s.log, PairOf(w.request).0, PairOf(w.request).1, Sha(w), w.request.now)
  }

  lemma RunnerRuns(s: System, w: Worker)
    requires w.phase.Leased? && ConsentOf(s, w).Some?
    ensures Next(With(s, w), CheckConsent(w.request.owner))
         == With(s, w.(phase := Running(w.phase.grant, w.phase.lost, ConsentOf(s, w).value)))
  {
  }

  lemma RunnerExits(s: System, w: Worker, executor: Executor)
    requires w.phase.Running? && executor != ExitsWith(0)
    ensures
      var o := w.request.owner;
      Next(Next(With(s, w), ExecutorEnds(o, executor)), Record(o))
        == With(s, w.(phase := Ran(w.phase.grant, w.phase.lost, if executor.Raises? then 4 else executor.code)))
  {
    var code := if executor.Raises? then 4 else executor.code;
    assert Next(With(s, w), ExecutorEnds(w.request.owner, executor)) == With(s, w.(phase := Ran(w.phase.grant, w.phase.lost, code)));
  }

  lemma RunnerRecords(s: System, w: Worker)
    requires w.phase.Running?
    ensures
      var o, event := w.request.owner, ExecutedEvent(w.phase.approval, w.request.now);
      Next(Next(With(s, w), ExecutorEnds(o, ExitsWith(0))), Record(o))
        == With(s, w.(phase := Ran(w.phase.grant, w.phase.lost, if Conflicts(s.log, event) then 5 else 0)))
           .(log := Append(s.log, event), executions := s.executions + [PairOf(w.request)])
  {
    var recording := w.(phase := Recording(w.phase.grant, w.phase.lost, w.phase.approval));
    assert Next(With(s, w), ExecutorEnds(w.request.owner, ExitsWith(0)))
        == With(s, recording).(executions := s.executions + [PairOf(w.request)]);
  }

  lemma RunnerConsented(s: System, w: Worker, executor: Executor)
    requires w.phase.Leased? && E.Acceptable(w.request) && ConsentOf(s, w).Some?
    ensures
      var o, run := w.request.owner, RunUnder(s.log, w.request, Runs(executor));
      var t := Next(Next(Next(With(s, w), CheckConsent(o)), ExecutorEnds(o, executor)), Record(o));
      && t.status == s.status && t.ledger == s.ledger && run.Exits?
      && t.log == (if run.appended == [] then s.log else Append(s.log, run.appended[0])) && |run.appended| <= 1
      && t.workers == s.workers[o := AfterCourse(w, run)]
  {
    var running := w.(phase := Running(w.phase.grant, w.phase.lost, ConsentOf(s, w).value));
    RunnerRuns(s, w);
    if executor == ExitsWith(0) {
      RunnerRecords(s, running);
    } else {
      RunnerExits(s, running, executor);
    }
  }

  lemma ThreeSteps(s: System, a: Move, b: Move, c: Move)
    ensures Run(s, [a, b, c]) == Next(Next(Next(s, a), b), c)
  {
    var moves := [a, b, c];
    assert moves[1..] == [b, c] && [b, c][1..] == [c] && [c][1..] == [];
    assert Run(s, moves) == Run(Next(s, a), [b, c]);
    assert Run(Next(s, a), [b, c]) == Run(Next(Next(s, a), b), [c]);
    assert Run(Next(Next(s, a), b), [c]) == Run(Next(Next(Next(s, a), b), c), []);
  }

  lemma RunsCourse(s: System, w: Worker, course: Course)
    requires w.phase.Leased? && E.Acceptable(w.request)
    ensures
      var t := Run(With(s, w), CourseMoves(w.request.owner, course));
      var run := RunUnder(s.log, w.request, course);
      && t.log == AppendAll(s.log, E.Appended(run)) && t.status == s.status && t.ledger == s.ledger
      && t.workers == s.workers[w.request.owner := AfterCourse(w, run)]
  {
    var moves, start := CourseMoves(w.request.owner, course), With(s, w);
    var run := RunUnder(s.log, w.request, course);
    if course.Runs? {
      ThreeSteps(start, moves[0], moves[1], moves[2]);
      assert moves == [moves[0], moves[1], moves[2]];
      if ConsentOf(s, w).None? {
        RunnerRefused(s, w, course.executor);
      } else {
        RunnerConsented(s, w, course.executor);
        AppendOne(s.log, run.appended);
      }
    } else {
      assert moves[1..] == [];
    }
  }

  lemma AppendOne(log: Log, events: seq<Event>)
    requires |events| <= 1
    ensures AppendAll(log, events) == if events == [] then log else Append(log, events[0])
  {
    if events != [] {
      assert events[1..] == [];
    }
  }

  lemma TwoSteps(s: System, a: Move, b: Move)
    ensures Run(s, [a, b]) == Next(Next(s, a), b)
  {
    assert [a, b][1..] == [b] && [b][1..] == [];
    assert Run(s, [a, b]) == Run(Next(s, a), [b]);
    assert Run(Next(s, a), [b]) == Run(Next(Next(s, a), b), []);
  }

  /** The end of an attempt: the lease as maintained decides whether the status is published,
      and its row is released in any case. */
  lemma Publishes(s: System, w: Worker, k: nat, m: Maintained, run: E.Run)
    requires k < |s.ledger.issued| && w.phase == Leased(k, m.lost) && s.ledger.rows == m.rows
    requires w.request.owner !in s.workers && w.request.construction.Some?
    ensures
      var o, g, beat := w.request.owner, s.ledger.issued[k], w.request.assertAt;
      var owned := !run.Escapes? && StillOwned(m, g, beat);
      var t := Next(Next(With(s, AfterCourse(w, run)), Publish(o, beat)), Close(o));
      && t.log == s.log && t.workers == s.workers
      && t.status == (if owned
                      then s.status[Sha(w) := E.Status(E.StateOf(E.ExitCode(run)), Some(w.request.now), Some(E.ExitCode(run)), None)]
                      else s.status)
      && t.ledger.rows == Released(if owned then Renewed(m.rows, g, Seconds(w), beat.value) else m.rows, g)
  {
    var o := w.request.owner;
    var published := Next(With(s, AfterCourse(w, run)), Publish(o, w.request.assertAt));
    assert published.workers == s.workers[o := w.(phase := Closing(k))];
    assert published.workers - {o} == s.workers;
  }

  /** From the lease on: heartbeats, runner, publication and release. */
  lemma FromLease(s: System, w: Worker, course: Course)
    requires w.phase.Cleared? && w.request.owner !in s.workers && E.Acceptable(w.request)
    requires E.LeaseFree(WorldOf(s), w.request) && w.request.run == RunUnder(s.log, w.request, course)
    ensures
      var r := w.request;
      var sha := r.construction.value.sha;
      var t := Run(Next(With(s, w), TakeLease(r.owner, r.acquireAt)),
                   Beating(r.owner, r.beats) + CourseMoves(r.owner, course) + [Publish(r.owner, r.assertAt), Close(r.owner)]);
      && t.log == AppendAll(s.log, E.Appended(r.run)) && t.workers == s.workers
      && t.status == (if E.Publishes(s.ledger.rows, r, sha) then s.status[sha := E.Published(r)] else s.status)
      && t.ledger.rows == s.ledger.rows - {sha}
  {
    var r := w.request;
    var o, sha, k := r.owner, r.construction.value.sha, |s.ledger.issued|;
    var g := E.GrantOf(s.ledger.rows, r, sha);
    var granted := s.(ledger := Ledger(s.ledger.rows[sha := Row(g.owner, g.token, g.expires)], s.ledger.issued + [g]));
    var m := E.LeaseAtPublication(s.ledger.rows, r, sha);
    var start := Maintaining(granted, w, k, Maintained(granted.ledger.rows, false));
    TakesLease(s, w);
    assert Next(With(s, w), TakeLease(o, r.acquireAt)) == start;
    Beats(granted, w, k, Maintained(granted.ledger.rows, false), r.beats);
    var beaten := granted.(ledger := granted.ledger.(rows := m.rows));
    var leased := w.(phase := Leased(k, m.lost));
    assert Run(start, Beating(o, r.beats)) == With(beaten, leased);
    RunsCourse(beaten, leased, course);
    var ran := Run(With(beaten, leased), CourseMoves(o, course));
    var ended := beaten.(log := ran.log, executions := ran.executions, writes := ran.writes);
    assert ran == With(ended, AfterCourse(leased, r.run));
    Publishes(ended, leased, k, m, r.run);
    E.LeaseEnds(s.ledger.rows, r, sha);
    TwoSteps(ran, Publish(o, r.assertAt), Close(o));
    RunJoined(start, Beating(o, r.beats) + CourseMoves(o, course), [Publish(o, r.assertAt), Close(o)]);
    RunJoined(start, Beating(o, r.beats), CourseMoves(o, course));
  }

  function LastMoves(r: E.Request, course: Course): seq<Move>
  {
    Beating(r.owner, r.beats) + CourseMoves(r.owner, course) + [Publish(r.owner, r.assertAt), Close(r.owner)]
  }

  /** The rest of an authorized attempt that the status file answers for. */
  lemma AnsweredIsOneStep(s: System, w: Worker, course: Course, world: E.World)
    requires w.phase.Admitted? && w.request.owner !in s.workers && E.Acceptable(w.request)
    requires E.Authorized(world.log, w.request) && WorldOf(s) == world.(log := E.AuthorizedLog(world.log, w.request))
    requires !E.Ready(world, w.request)
    ensures
      var r := w.request;
      var t := Run(Next(Next(With(s, w), ReadStatus(r.owner)), TakeLease(r.owner, r.acquireAt)), LastMoves(r, course));
      WorldOf(t) == E.AttemptStep(world, r).world && t.workers == s.workers
  {
    var o := w.request.owner;
    ReadsStatus(s, w);
    assert Next(s, TakeLease(o, w.request.acquireAt)) == s;
    GoneIsStill(s, LastMoves(w.request, course), o);
    E.StatusAnswers(world, w.request);
  }

  /** The rest of an authorized attempt that asks for its lease. */
  lemma AskedIsOneStep(s: System, w: Worker, course: Course, world: E.World)
    requires w.phase.Cleared? && w.request.owner !in s.workers && E.Ready(world, w.request)
    requires WorldOf(s) == world.(log := E.AuthorizedLog(world.log, w.request))
    requires w.request.run == RunUnder(s.log, w.request, course)
    ensures
      var r := w.request;
      var t := Run(Next(With(s, w), TakeLease(r.owner, r.acquireAt)), LastMoves(r, course));
      WorldOf(t) == E.AttemptStep(world, r).world && t.workers == s.workers
  {
    var r := w.request;
    if E.LeaseFree(world, r) {
      FromLease(s, w, course);
      E.ReadyAttemptRuns(world, r);
      E.LeaseEnds(s.ledger.rows, r, r.construction.value.sha);
    } else {
      TakesLease(s, w);
      GoneIsStill(s, LastMoves(r, course), r.owner);
      E.UnleasedIsRefused(world, r);
    }
  }

  lemma AuthorizedIsOneStep(s: System, r: E.Request, course: Course)
    requires Fresh(s, r.owner) && E.Acceptable(r) && E.Authorized(s.log, r)
    requires r.run == RunUnder(E.AuthorizedLog(s.log, r), r, course)
    ensures
      var admitted := Next(Next(s, Arrive(r.owner, r)), Approve(r.owner));
      var t := Run(Next(Next(admitted, ReadStatus(r.owner)), TakeLease(r.owner, r.acquireAt)), LastMoves(r, course));
      WorldOf(t) == E.AttemptStep(WorldOf(s), r).world && t.workers == s.workers
  {
    var w := Worker(r, E.AuthorizationOf(s.log, r), Admitted);
    var logged := s.(log := E.AuthorizedLog(s.log, r));
    ArrivesAuthorized(s, r);
    assert Next(Next(s, Arrive(r.owner, r)), Approve(r.owner)) == With(logged, w);
    if E.Ready(WorldOf(s), r) {
      ReadsStatus(logged, w);
      AskedIsOneStep(logged, w.(phase := Cleared), course, WorldOf(s));
    } else {
      AnsweredIsOneStep(logged, w, course, WorldOf(s));
    }
  }

  lemma RefusedIsOneStep(s: System, r: E.Request, course: Course)
    requires Fresh(s, r.owner) && !(E.Acceptable(r) && E.Authorized(s.log, r))
    ensures
      var refused := Next(Next(s, Arrive(r.owner, r)), Approve(r.owner));
      var t := Run(Next(Next(refused, ReadStatus(r.owner)), TakeLease(r.owner, r.acquireAt)), LastMoves(r, course));
      WorldOf(t) == E.AttemptStep(WorldOf(s), r).world && t.workers == s.workers
  {
    ArrivesInVain(s, r);
    var refused := Next(Next(s, Arrive(r.owner, r)), Approve(r.owner));
    assert Next(refused, ReadStatus(r.owner)) == refused && Next(refused, TakeLease(r.owner, r.acquireAt)) == refused;
    GoneIsStill(refused, LastMoves(r, course), r.owner);
    if E.Acceptable(r) {
      E.UnauthorizedIsRefused(WorldOf(s), r);
    } else {
      E.UnacceptableIsRefused(WorldOf(s), r);
    }
  }

  /** All moves of one attempt, in the order of the program. */
  function AttemptMoves(r: E.Request, course: Course): seq<Move>
  {
    [Arrive(r.owner, r), Approve(r.owner)] + [ReadStatus(r.owner), TakeLease(r.owner, r.acquireAt)] + LastMoves(r, course)
  }

  /** Undisturbed, the moves of one attempt are the attempt: the same log, status file and
      lease rows in the end, and no worker left, for every request, state and course. */
  lemma AttemptAloneIsOneStep(s: System, r: E.Request, course: Course)
    requires Fresh(s, r.owner)
    requires E.Acceptable(r) ==> r.run == RunUnder(E.AuthorizedLog(s.log, r), r, course)
    ensures
      var t := Run(s, AttemptMoves(r, course));
      WorldOf(t) == E.AttemptStep(WorldOf(s), r).world && t.workers == s.workers
  {
    var o := r.owner;
    var entered := Next(Next(s, Arrive(o, r)), Approve(o));
    RunJoined(s, [Arrive(o, r), Approve(o)] + [ReadStatus(o), TakeLease(o, r.acquireAt)], LastMoves(r, course));
    RunJoined(s, [Arrive(o, r), Approve(o)], [ReadStatus(o), TakeLease(o, r.acquireAt)]);
    TwoSteps(s, Arrive(o, r), Approve(o));
    TwoSteps(entered, ReadStatus(o), TakeLease(o, r.acquireAt));
    if E.Acceptable(r) && E.Authorized(s.log, r) {
      AuthorizedIsOneStep(s, r, course);
    } else {
      RefusedIsOneStep(s, r, course);
    }
  }
}
