/**
  The fenced attempt register of production_context_state_resilience.py.

  One JSON file holds the latest attempt.  A worker begins an attempt by writing a
  `running` record with a fresh identifier and the previous fence plus one, prepares the
  context for a long time, and finishes by compare-and-replace: the file changes only if it
  still carries the worker's own (identifier, fence) pair.  Each section under the file lock
  is one atomic step here.  The file may also be lost (deleted, unreadable, not an object)
  at any moment; the program reads such a file as absent and restarts the fence at 1.
*/
module AttemptRegister {
  import opened Options

  /** What `previous.get("fence_version", 0)` can find.  `Foreign` is a boolean, text, a float. */
  datatype Fence = Missing | Number(n: int) | Foreign

  datatype Record = Record(
    id: string,
    fence: Fence,
    state: string,
    cycle: Option<string>,
    supersedes: Option<string>,
    startedAt: int,
    completedAt: Option<int>,
    detail: string)

  type File = Option<Record>

  /** How the wrapped preparer ends.  `Aborted` is an exit that `except Exception` does not
      catch; `Unserializable` is a returned value whose `to_dict` raises. */
  datatype Outcome =
    | Raised(detail: string)
    | Aborted
    | Unserializable
    | Returned(state: string, detail: string, cycle: Option<string>)

  predicate Settles(o: Outcome) { o.Raised? || o.Returned? }

  predicate CycleMismatch(owned: Option<string>, o: Outcome)
  {
    o.Returned? && owned.Some? && o.cycle.Some? && o.cycle != owned
  }

  // ---------------------------------------------------------------- the two file transitions

  function NextFence(file: File): (n: int)
    ensures 1 <= n
  {
    if file.None? then 1
    else match file.value.fence
      case Missing => 1
      case Number(k) => if 0 <= k then k + 1 else 1
      case Foreign => 1
  }

  const RUNNING_DETAIL := "A governed production-context refresh is in progress."

  function BegunRecord(file: File, id: string, cycle: Option<string>, at: int): Record
  {
    Record(id, Number(NextFence(file)), "running", cycle,
           if file.Some? && file.value.id != "" then Some(file.value.id) else None,
           at, None, RUNNING_DETAIL)
  }

  predicate Owns(file: File, id: string, fence: Fence)
  {
    file.Some? && file.value.id == id && file.value.fence == fence
  }

  /** `setdefault`: a terminal payload inherits the link of the record it replaces. */
  function Carry(current: Record, payload: Record): Record
  {
    if payload.supersedes.None? then payload.(supersedes := current.supersedes) else payload
  }

  function FinishFile(file: File, id: string, fence: Fence, payload: Record): File
  {
    if Owns(file, id, fence) then Some(Carry(file.value, payload)) else file
  }

  const MISMATCH := "Production context result cycle does not match the fenced attempt cycle."

  /** The record a finished attempt asks to publish. */
  function Payload(mine: Record, o: Outcome, at: int): Record
    requires Settles(o)
  {
    var base := mine.(supersedes := None, completedAt := Some(at));
    if o.Raised? then base.(state := "failed", detail := o.detail)
    else if CycleMismatch(mine.cycle, o) then base.(state := "failed", detail := MISMATCH)
    else base.(state := if o.state == "" then "unknown" else o.state,
               detail := o.detail,
               cycle := if mine.cycle.Some? then mine.cycle else o.cycle)
  }

  /** What a record says of how its attempt ended; one that never settled is still running. */
  predicate EndsAs(r: Record, o: Outcome, owned: Option<string>, at: int)
  {
    match o
    case Aborted => r.state == "running" && r.completedAt == None && r.cycle == owned
    case Unserializable => r.state == "running" && r.completedAt == None && r.cycle == owned
    case Raised(detail) =>
      r.state == "failed" && r.detail == detail && r.completedAt == Some(at) && r.cycle == owned
    case Returned(state, detail, cycle) =>
      && r.completedAt == Some(at)
      && if owned.Some? && cycle.Some? && owned != cycle
         then
           && r.state == "failed" && r.cycle == owned
           && r.detail == "Production context result cycle does not match the fenced attempt cycle."
         else
           && r.detail == detail
           && (if state == "" then r.state == "unknown" else r.state == state)
           && (if owned.Some? then r.cycle == owned else r.cycle == cycle)
  }

  // ---------------------------------------------------------------- the program

  /** What other processes may do to the file while a preparer runs. */
  datatype Interference =
    | OtherBegins(id: string, cycle: Option<string>, at: int)
    | OtherFinishes(id: string, fence: Fence, payload: Record)
    | FileLost

  function Disturb(file: File, step: Interference): File
  {
    match step
    case OtherBegins(id, cycle, at) => Some(BegunRecord(file, id, cycle, at))
    case OtherFinishes(id, fence, payload) => FinishFile(file, id, fence, payload)
    case FileLost => None
  }

  function DisturbAll(file: File, steps: seq<Interference>): File
  {
    if steps == [] then file
    else Disturb(DisturbAll(file, steps[..|steps| - 1]), steps[|steps| - 1])
  }

  class Register {
    var file: File

    constructor (existing: File)
      ensures file == existing
    {
      file := existing;
    }

    method Begin(id: string, cycle: Option<string>, at: int) returns (mine: Record)
      modifies this
      ensures mine == BegunRecord(old(file), id, cycle, at)
      ensures file == Some(mine)
      ensures mine.id == id && mine.cycle == cycle && mine.startedAt == at
      ensures mine.state == "running" && mine.completedAt.None?
      ensures mine.detail == "A governed production-context refresh is in progress."
      ensures
        var was := old(file);
        && mine.fence == Number(if was.Some? && was.value.fence.Number? && 0 <= was.value.fence.n then was.value.fence.n + 1 else 1)
        && mine.supersedes == if was.Some? && was.value.id != "" then Some(was.value.id) else None
    {
      var fence := 1;
      var previousId := None;
      if file.Some? {
        if file.value.fence.Number? && 0 <= file.value.fence.n {
          fence := file.value.fence.n + 1;
        }
        if file.value.id != "" {
          previousId := Some(file.value.id);
        }
      }
      mine := Record(id, Number(fence), "running", cycle, previousId, at, None,
                     RUNNING_DETAIL);
      file := Some(mine);
    }

    method FinishIfOwned(id: string, fence: Fence, payload: Record) returns (replaced: bool)
      modifies this
      ensures replaced <==> Owns(old(file), id, fence)
      ensures file == FinishFile(old(file), id, fence, payload)
      ensures replaced <==> old(file).Some? && old(file).value.id == id && old(file).value.fence == fence
      ensures !replaced ==> file == old(file)
      ensures replaced && payload.supersedes.Some? ==> file == Some(payload)
      ensures replaced && payload.supersedes.None? ==> file == Some(payload.(supersedes := old(file).value.supersedes))
    {
      if file.None? {
        return false;
      }
      if file.value.id != id {
        return false;
      }
      if file.value.fence != fence {
        return false;
      }
      var final := payload;
      if final.supersedes.None? {
        final := final.(supersedes := file.value.supersedes);
      }
      file := Some(final);
      return true;
    }

    /** The wrapper.  `others` is whatever happens to the file while the preparer runs.
        A call finishes exactly once when its preparer settles, and not at all otherwise. */
    method RecordedCall(id: string, cycle: Option<string>, at: int,
                        others: seq<Interference>, outcome: Outcome, doneAt: int)
      returns (raised: bool, finishes: nat)
      modifies this
      ensures raised <==> !outcome.Returned? || (cycle.Some? && outcome.cycle.Some? && cycle != outcome.cycle)
      ensures finishes == if outcome.Raised? || outcome.Returned? then 1 else 0
      ensures
        var mine := BegunRecord(old(file), id, cycle, at);
        var seen := DisturbAll(Some(mine), others);
        file == if Settles(outcome) then FinishFile(seen, id, mine.fence, Payload(mine, outcome, doneAt)) else seen
      // Nobody began and the file was not lost meanwhile: the file tells how the call ended.
      ensures Foreigners(id, others) && !Superseded(others) ==> file.Some? && EndsAs(file.value, outcome, cycle, doneAt)
      ensures
        var was := old(file);
        Foreigners(id, others) && !Superseded(others) ==>
          && file.value.id == id && file.value.startedAt == at
          && file.value.fence == Number(if was.Some? && was.value.fence.Number? && 0 <= was.value.fence.n then was.value.fence.n + 1 else 1)
          && file.value.supersedes == if was.Some? && was.value.id != "" then Some(was.value.id) else None
      // Otherwise the call leaves no trace: the file is what the others made of it.
      ensures
        Foreigners(id, others) && Superseded(others) ==>
          && file == DisturbAll(Some(BegunRecord(old(file), id, cycle, at)), others)
          && (file.None? || file.value.id != id)
    {
      finishes := 0;
      var mine := Begin(id, cycle, at);
      if Foreigners(id, others) {
        FinishEffectiveIffNotSuperseded(mine, others);
      }
      for i := 0 to |others|
        invariant file == DisturbAll(Some(mine), others[..i])
      {
        assert others[..i + 1][..i] == others[..i];
        file := Disturb(file, others[i]);
      }
      assert others[..|others|] == others;
      if outcome.Aborted? || outcome.Unserializable? {
        return true, finishes;
      }
      var base := mine.(supersedes := None, completedAt := Some(doneAt));
      if outcome.Raised? {
        var _ := FinishIfOwned(id, mine.fence, base.(state := "failed", detail := outcome.detail));
        return true, finishes + 1;
      }
      if cycle.Some? && outcome.cycle.Some? && outcome.cycle != cycle {
        var _ := FinishIfOwned(id, mine.fence, base.(state := "failed", detail := MISMATCH));
        return true, finishes + 1;
      }
      var terminal := base.(
        state := if outcome.state == "" then "unknown" else outcome.state,
        detail := outcome.detail,
        cycle := if cycle.Some? then cycle else outcome.cycle);
      var _ := FinishIfOwned(id, mine.fence, terminal);
      return false, finishes + 1;
    }
  }

  // ---------------------------------------------------------------- one call among others

  /** Other workers use other identifiers: they came from `uuid4`. */
  predicate Foreigners(id: string, steps: seq<Interference>)
  {
    forall i | 0 <= i < |steps| ::
      && (steps[i].OtherBegins? ==> steps[i].id != id)
      && (steps[i].OtherFinishes? ==> steps[i].id != id && steps[i].payload.id == steps[i].id)
  }

  predicate Superseded(steps: seq<Interference>)
  {
    exists i :: 0 <= i < |steps| && !steps[i].OtherFinishes?
  }

  /** A call's own finish takes effect exactly when nobody began and the file was not lost
      while its preparer ran; until then the file is still its own running record. */
  lemma {:induction false} FinishEffectiveIffNotSuperseded(mine: Record, steps: seq<Interference>)
    requires Foreigners(mine.id, steps)
    ensures Owns(DisturbAll(Some(mine), steps), mine.id, mine.fence) <==> !Superseded(steps)
    ensures !Superseded(steps) ==> DisturbAll(Some(mine), steps) == Some(mine)
    ensures var seen := DisturbAll(Some(mine), steps); Superseded(steps) ==> seen.None? || seen.value.id != mine.id
  {
    if steps != [] {
      var n := |steps| - 1;
      FinishEffectiveIffNotSuperseded(mine, steps[..n]);
      assert forall i | 0 <= i < n :: steps[..n][i] == steps[i];
      if Superseded(steps[..n]) {
        assert Superseded(steps);
      } else if steps[n].OtherFinishes? {
        assert !Superseded(steps);
      }
    }
  }

  // ---------------------------------------------------------------- whole runs

  /** A step of the whole system.  Attempt `k` is the k-th begin; it may settle once. */
  datatype Step =
    | Begin(id: string, cycle: Option<string>, at: int)
    | Finish(k: nat, outcome: Outcome, at: int)
    | Lose

  /** The file together with the history that only the proofs look at: the running record
      each begin wrote, the payload each settled attempt offered, and every record written. */
  datatype System = System(
    file: File,
    begun: seq<Record>,
    settled: map<nat, Record>,
    written: seq<Record>)

  function Start(existing: File): System { System(existing, [], map[], []) }

  predicate Enabled(s: System, step: Step)
  {
    match step
    case Begin(id, _, _) => id != "" && forall r | r in s.begun :: r.id != id
    case Finish(k, o, _) => k < |s.begun| && k !in s.settled && Settles(o)
    case Lose => true
  }

  function Next(s: System, step: Step): System
    requires Enabled(s, step)
  {
    match step
    case Begin(id, cycle, at) =>
      var r := BegunRecord(s.file, id, cycle, at);
      System(Some(r), s.begun + [r], s.settled, s.written + [r])
    case Finish(k, o, at) =>
      var p := Payload(s.begun[k], o, at);
      var f := FinishFile(s.file, p.id, p.fence, p);
      System(f, s.begun, s.settled[k := p],
             if Owns(s.file, p.id, p.fence) then s.written + [f.value] else s.written)
    case Lose => s.(file := None)
  }

  predicate Valid(s: System, steps: seq<Step>)
    decreases |steps|
  {
    steps == [] || (Enabled(s, steps[0]) && Valid(Next(s, steps[0]), steps[1..]))
  }

  function Run(s: System, steps: seq<Step>): System
    requires Valid(s, steps)
    decreases |steps|
  {
    if steps == [] then s else Run(Next(s, steps[0]), steps[1..])
  }

  /** The record the file must hold: the last-begun worker's, settled or still running. */
  function Expected(s: System): Record
    requires s.begun != []
  {
    var k := |s.begun| - 1;
    if k in s.settled then Carry(s.begun[k], s.settled[k]) else s.begun[k]
  }

  /** `next` was begun on top of `prev`'s record. */
  predicate Linked(prev: Record, next: Record)
  {
    && next.supersedes == Some(prev.id)
    && prev.fence.Number? && next.fence == Number(prev.fence.n + 1)
  }

  /** `next` was begun on a lost file. */
  predicate Restarted(next: Record) { next.supersedes == None && next.fence == Number(1) }

  predicate DistinctIds(begun: seq<Record>)
  {
    forall i, j | 0 <= i < j < |begun| :: begun[i].id != begun[j].id
  }

  /** A written record belongs to one begin and shows that begin's link, fence and cycle. */
  predicate Faithful(w: Record, b: Record)
  {
    && w.id == b.id && w.fence == b.fence && w.supersedes == b.supersedes
    && (b.cycle.Some? ==> w.cycle == b.cycle)
  }

  predicate SoundBegins(s: System)
  {
    && DistinctIds(s.begun)
    && (forall k | 0 <= k < |s.begun| :: s.begun[k].id != "" && s.begun[k].fence.Number? && 1 <= s.begun[k].fence.n)
    && (forall k | 1 <= k < |s.begun| :: Linked(s.begun[k - 1], s.begun[k]) || Restarted(s.begun[k]))
  }

  /** Settled payloads belong to a begin and carry no link of their own. */
  predicate SoundPayloads(s: System)
  {
    forall k | k in s.settled ::
      && k < |s.begun|
      && s.settled[k].supersedes.None?
      && Faithful(Carry(s.begun[k], s.settled[k]), s.begun[k])
  }

  predicate SoundFile(s: System)
  {
    s.begun != [] && s.file.Some? ==> s.file.value == Expected(s)
  }

  ghost predicate Accounted(s: System, w: Record)
  {
    exists k :: 0 <= k < |s.begun| && Faithful(w, s.begun[k])
  }

  ghost predicate Invariant(s: System)
  {
    && SoundBegins(s) && SoundPayloads(s) && SoundFile(s)
    && (forall w | w in s.written :: Accounted(s, w))
  }

  /** Records stay accounted for as begins are added, and as one more faithful record is written. */
  lemma WritingKeepsAccounts(s: System, t: System, k: nat)
    requires forall w | w in s.written :: Accounted(s, w)
    requires s.begun <= t.begun && s.written <= t.written && |t.written| <= |s.written| + 1
    requires t.written != s.written ==> k < |t.begun| && Faithful(t.written[|s.written|], t.begun[k])
    ensures forall w | w in t.written :: Accounted(t, w)
  {
  }

  lemma BeginKeepsBegins(s: System, step: Step)
    requires SoundBegins(s) && SoundFile(s) && SoundPayloads(s) && step.Begin? && Enabled(s, step)
    ensures SoundBegins(Next(s, step))
  {
  }

  lemma BeginKeepsInvariant(s: System, step: Step)
    requires Invariant(s) && step.Begin? && Enabled(s, step)
    ensures Invariant(Next(s, step))
  {
    var t := Next(s, step);
    BeginKeepsBegins(s, step);
    assert |s.begun| !in t.settled;
    assert t.begun[..|s.begun|] == s.begun;
    assert Faithful(t.written[|s.written|], t.begun[|s.begun|]);
    WritingKeepsAccounts(s, t, |s.begun|);
  }

  /** Only the worker that began last can own the file. */
  lemma OwnerBeganLast(s: System, k: nat)
    requires SoundBegins(s) && SoundPayloads(s) && SoundFile(s)
    requires k < |s.begun| && Owns(s.file, s.begun[k].id, s.begun[k].fence)
    ensures k == |s.begun| - 1 && s.file == Some(Expected(s))
  {
  }

  lemma PayloadsAreFaithful(b: Record, o: Outcome, at: int)
    requires Settles(o)
    ensures Payload(b, o, at).supersedes.None? && Faithful(Carry(b, Payload(b, o, at)), b)
  {
  }

  lemma FinishKeepsInvariant(s: System, step: Step)
    requires Invariant(s) && step.Finish? && Enabled(s, step)
    ensures Invariant(Next(s, step))
  {
    var t := Next(s, step);
    var b := s.begun[step.k];
    var p := Payload(b, step.outcome, step.at);
    PayloadsAreFaithful(b, step.outcome, step.at);
    assert SoundBegins(t) && SoundPayloads(t);
    if Owns(s.file, p.id, p.fence) {
      OwnerBeganLast(s, step.k);
      assert t.file == Some(Carry(b, p));
    }
    WritingKeepsAccounts(s, t, step.k);
  }

  lemma NextKeepsInvariant(s: System, step: Step)
    requires Invariant(s) && Enabled(s, step)
    ensures Invariant(Next(s, step))
  {
    match step
    case Begin(_, _, _) => BeginKeepsInvariant(s, step);
    case Finish(_, _, _) => FinishKeepsInvariant(s, step);
    case Lose =>
      assert forall w | w in s.written :: Accounted(s, w) ==> Accounted(Next(s, step), w);
  }

  lemma {:induction false} RunKeepsInvariant(s: System, steps: seq<Step>)
    requires Invariant(s) && Valid(s, steps)
    ensures Invariant(Run(s, steps))
    decreases |steps|
  {
    if steps != [] {
      NextKeepsInvariant(s, steps[0]);
      RunKeepsInvariant(Next(s, steps[0]), steps[1..]);
    }
  }

  /** Whatever the interleaving of any number of workers, and however often the file is
      lost, a readable file is exactly the record of the worker that began last: its running
      record, or the terminal record it published, with the link its begin recorded. */
  lemma FileIsLastBegunWorkers(existing: File, steps: seq<Step>)
    requires Valid(Start(existing), steps)
    ensures
      var s := Run(Start(existing), steps);
      && (s.begun != [] && s.file.Some? ==> s.file.value == Expected(s))
      && forall w | w in s.written :: Accounted(s, w)
  {
    RunKeepsInvariant(Start(existing), steps);
  }

  lemma OnlyLastFinishes(s: System, k: nat, outcome: Outcome, at: int)
    requires SoundBegins(s) && SoundPayloads(s) && SoundFile(s)
    requires Enabled(s, Finish(k, outcome, at)) && k < |s.begun| - 1
    ensures Next(s, Finish(k, outcome, at)).file == s.file
  {
  }

  /** A superseded worker's finish changes nothing, even after the fence restarted. */
  lemma SupersededFinishIsInert(existing: File, steps: seq<Step>, k: nat, outcome: Outcome, at: int)
    requires Valid(Start(existing), steps)
    requires Enabled(Run(Start(existing), steps), Finish(k, outcome, at))
    requires k < |Run(Start(existing), steps).begun| - 1
    ensures
      var s := Run(Start(existing), steps);
      Next(s, Finish(k, outcome, at)).file == s.file
  {
    RunKeepsInvariant(Start(existing), steps);
    OnlyLastFinishes(Run(Start(existing), steps), k, outcome, at);
  }

  // ---------------------------------------------------------------- fences and links

  /** One entry per begin: whether the file was lost since the begin before it. */
  function Gaps(steps: seq<Step>, lost: bool): seq<bool>
    decreases |steps|
  {
    if steps == [] then []
    else match steps[0]
      case Begin(_, _, _) => [lost] + Gaps(steps[1..], false)
      case Finish(_, _, _) => Gaps(steps[1..], lost)
      case Lose => Gaps(steps[1..], true)
  }

  /** The k-th begin is linked to the one before, or restarts after a loss. */
  predicate ChainsAt(begun: seq<Record>, k: nat, lost: bool)
    requires k < |begun|
  {
    0 < k ==> if lost then Restarted(begun[k]) else Linked(begun[k - 1], begun[k])
  }

  ghost predicate FollowsGaps(begun: seq<Record>, gaps: seq<bool>, from: nat)
  {
    && |begun| == from + |gaps|
    && forall g | 0 <= g < |gaps| :: ChainsAt(begun, from + g, gaps[g])
  }

  lemma GapsExtend(begun: seq<Record>, gaps: seq<bool>, n: nat, lost: bool)
    requires FollowsGaps(begun, gaps, n + 1) && ChainsAt(begun, n, lost)
    ensures FollowsGaps(begun, [lost] + gaps, n)
  {
    forall g | 0 < g <= |gaps|
      ensures ChainsAt(begun, n + g, ([lost] + gaps)[g])
    {
      assert ChainsAt(begun, n + 1 + (g - 1), gaps[g - 1]);
    }
  }

  lemma BeginFollowsGap(s: System, step: Step, lost: bool, begun: seq<Record>, gaps: seq<bool>)
    requires Invariant(s) && step.Begin? && Enabled(s, step)
    requires s.begun != [] ==> (s.file.None? <==> lost)
    requires Next(s, step).begun <= begun && FollowsGaps(begun, gaps, |s.begun| + 1)
    ensures s.begun <= begun && FollowsGaps(begun, [lost] + gaps, |s.begun|)
  {
    var r := BegunRecord(s.file, step.id, step.cycle, step.at);
    assert Next(s, step).begun == s.begun + [r];
    assert begun[|s.begun|] == r;
    if s.begun != [] {
      assert begun[|s.begun| - 1] == s.begun[|s.begun| - 1];
    }
    GapsExtend(begun, gaps, |s.begun|, lost);
  }

  lemma {:induction false} RunFollowsGaps(s: System, steps: seq<Step>, lost: bool)
    requires Invariant(s) && Valid(s, steps)
    requires s.begun != [] ==> (s.file.None? <==> lost)
    ensures Invariant(Run(s, steps)) && s.begun <= Run(s, steps).begun
    ensures FollowsGaps(Run(s, steps).begun, Gaps(steps, lost), |s.begun|)
    decreases |steps|
  {
    if steps != [] {
      var t := Next(s, steps[0]);
      NextKeepsInvariant(s, steps[0]);
      match steps[0]
      case Begin(_, _, _) =>
        RunFollowsGaps(t, steps[1..], false);
        BeginFollowsGap(s, steps[0], lost, Run(t, steps[1..]).begun, Gaps(steps[1..], false));
      case Finish(_, _, _) => RunFollowsGaps(t, steps[1..], lost);
      case Lose => RunFollowsGaps(t, steps[1..], true);
    }
  }

  predicate Unbroken(gaps: seq<bool>, i: nat, j: nat)
    requires i <= j < |gaps|
  {
    forall k | i < k <= j :: !gaps[k]
  }

  lemma {:induction false} FencesCountFromLastGap(begun: seq<Record>, gaps: seq<bool>, i: nat, j: nat)
    requires FollowsGaps(begun, gaps, 0) && i <= j < |begun| && begun[i].fence.Number?
    ensures begun[j].fence.Number?
    ensures if Unbroken(gaps, i, j) then begun[j].fence.n == begun[i].fence.n + (j - i) else begun[j].fence.n <= j - i
  {
    if i < j {
      FencesCountFromLastGap(begun, gaps, i, j - 1);
      assert ChainsAt(begun, 0 + j, gaps[j]);
      assert Unbroken(gaps, i, j) <==> Unbroken(gaps, i, j - 1) && !gaps[j];
    }
  }

  /** Over every run, with losses: between two begins the fence rises by their distance iff
      the file was not lost in between, and it rises from one begin to the next iff it was not
      lost between those two.  The `supersedes` link of every record ever written for a begin,
      running or terminal, names the begin before it, or nothing after a loss; so the links
      replay the exact order of begins from loss to loss. */
  lemma FencesAndLinksReplayBegins(existing: File, steps: seq<Step>, i: nat, j: nat)
    requires Valid(Start(existing), steps)
    requires i < j < |Run(Start(existing), steps).begun|
    ensures
      var begun, gaps := Run(Start(existing), steps).begun, Gaps(steps, false);
      && |gaps| == |begun|
      && begun[i].fence.Number? && begun[j - 1].fence.Number? && begun[j].fence.Number?
      && (begun[j].fence.n == begun[i].fence.n + (j - i) <==> Unbroken(gaps, i, j))
      && (begun[j - 1].fence.n < begun[j].fence.n <==> !gaps[j])
      && (forall w | w in Run(Start(existing), steps).written && w.id == begun[j].id ::
            w.supersedes == if gaps[j] then None else Some(begun[j - 1].id))
  {
    var s, gaps := Run(Start(existing), steps), Gaps(steps, false);
    RunFollowsGaps(Start(existing), steps, false);
    FencesCountFromLastGap(s.begun, gaps, i, j);
    FencesCountFromLastGap(s.begun, gaps, j - 1, j);
    assert ChainsAt(s.begun, 0 + j, gaps[j]);
    forall w | w in s.written && w.id == s.begun[j].id
      ensures w.supersedes == if gaps[j] then None else Some(s.begun[j - 1].id)
    {
      var k :| 0 <= k < |s.begun| && Faithful(w, s.begun[k]);
      assert k == j;
    }
  }

  /** Fences are not monotone when the file is lost: two attempts of one run share fence 1.
      Ownership still holds, because the identifiers differ (`SupersededFinishIsInert`). */
  lemma LostFileRestartsTheFence()
    ensures
      var steps := [Begin("a", None, 0), Lose, Begin("b", None, 1)];
      && Valid(Start(None), steps)
      && var s := Run(Start(None), steps);
         && |s.begun| == 2 && s.begun[0].fence == s.begun[1].fence == Number(1)
         && s.begun[1].supersedes == None
  {
  }
}
