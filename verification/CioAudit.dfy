/**
  The lineage and audit pipeline: selecting the records of one decision and exporting them
  (cio_decision_export.py), enriching cycle-level no-action reports
  (cio_report_completeness_enrichment.py), refining the governance verdict
  (cio_report_governance_refinement.py).

  Texts are already cleaned; "" is an absent text.  A missing or malformed count is `None`.
*/
module CioAudit {
  import opened Options

  datatype Disposition = Disposition(identifier: string, action: string, authority: string)

  /** The fields of a persisted record that the pipeline reads.  `journal` is the text of an
      attached journal entry, if there is one. */
  datatype Record = Record(
    decisionId: string, identifier: string, cycleId: string, cycleKey: string,
    journal: Option<string>, asOf: string, codeVersion: string, action: string,
    disposition: Option<Disposition>)

  datatype Name = CioDecision | DailyBriefing | EvidenceSnapshot | PortfolioConstruction | DecisionEvaluation

  const NAMES: seq<Name> :=
    [CioDecision, DailyBriefing, EvidenceSnapshot, PortfolioConstruction, DecisionEvaluation]

  datatype Records = Records(
    decision: Option<Record>, briefing: Option<Record>, evidence: Option<Record>,
    construction: Option<Record>, evaluation: Option<Record>)
  {
    function Get(name: Name): Option<Record>
    {
      match name
      case CioDecision => decision
      case DailyBriefing => briefing
      case EvidenceSnapshot => evidence
      case PortfolioConstruction => construction
      case DecisionEvaluation => evaluation
    }

    function With(name: Name, r: Option<Record>): Records
    {
      match name
      case CioDecision => this.(decision := r)
      case DailyBriefing => this.(briefing := r)
      case EvidenceSnapshot => this.(evidence := r)
      case PortfolioConstruction => this.(construction := r)
      case DecisionEvaluation => this.(evaluation := r)
    }
  }

  function First(a: string, b: string): string { if a != "" then a else b }

  function DecisionOf(name: Name, r: Option<Record>): string
  {
    if r.None? then ""
    else if name.CioDecision? then First(r.value.decisionId, r.value.identifier)
    else r.value.decisionId
  }

  function CycleOf(r: Option<Record>): string
  {
    if r.None? then "" else First(r.value.cycleId, r.value.cycleKey)
  }

  predicate OccursAt(text: string, part: string, i: int)
  {
    0 <= i <= |text| - |part| && text[i..i + |part|] == part
  }

  predicate Contains(text: string, part: string)
  {
    exists i | 0 <= i <= |text| :: OccursAt(text, part, i)
  }

  /** A construction matches a cycle by its own cycle, or else by its journal text. */
  predicate MatchesCycle(r: Record, cycle: string)
  {
    && cycle != ""
    && if First(r.cycleId, r.cycleKey) != "" then First(r.cycleId, r.cycleKey) == cycle
       else r.journal.Some? && r.journal.value != "" && Contains(r.journal.value, cycle)
  }

  // ---------------------------------------------------------------- selecting one lineage

  /** The test each history record must pass to be selected under `name`. */
  predicate Belongs(name: Name, r: Record, decision: string, cycle: string)
  {
    || (decision != "" && DecisionOf(name, Some(r)) == decision)
    || (name.PortfolioConstruction? && MatchesCycle(r, cycle))
  }

  function FirstBelonging(history: seq<Record>, name: Name, decision: string, cycle: string): (r: Option<Record>)
    ensures r.Some? ==> r.value in history && Belongs(name, r.value, decision, cycle)
    ensures r.None? ==> forall x | x in history :: !Belongs(name, x, decision, cycle)
  {
    if history == [] then None
    else if Belongs(name, history[0], decision, cycle) then Some(history[0])
    else FirstBelonging(history[1..], name, decision, cycle)
  }

  datatype Histories = Histories(
    decisions: seq<Record>, snapshots: seq<Record>, constructions: seq<Record>, evaluations: seq<Record>)

  /** Histories are newest-first. */
  function Select(briefing: Option<Record>, h: Histories): Records
  {
    var d, c := DecisionOf(DailyBriefing, briefing), CycleOf(briefing);
    Records(
      FirstBelonging(h.decisions, CioDecision, d, c),
      briefing,
      FirstBelonging(h.snapshots, EvidenceSnapshot, d, c),
      FirstBelonging(h.constructions, PortfolioConstruction, d, c),
      FirstBelonging(h.evaluations, DecisionEvaluation, d, c))
  }

  /** A record of another lineage, inserted anywhere in a history, never changes the choice. */
  lemma {:induction false} ForeignRecordsAreIgnored(before: seq<Record>, r: Record, after: seq<Record>,
                                                    name: Name, decision: string, cycle: string)
    requires !Belongs(name, r, decision, cycle)
    ensures FirstBelonging(before + [r] + after, name, decision, cycle)
         == FirstBelonging(before + after, name, decision, cycle)
  {
    var all, rest := before + [r] + after, before + after;
    if before == [] {
      assert all[0] == r && all[1..] == after && rest == after;
    } else {
      ForeignRecordsAreIgnored(before[1..], r, after, name, decision, cycle);
      assert all[0] == before[0] && all[1..] == before[1..] + [r] + after;
      assert rest[0] == before[0] && rest[1..] == before[1..] + after;
    }
  }

  /** The newest record that belongs is chosen. */
  lemma {:induction false} NewestIsSelected(before: seq<Record>, r: Record, after: seq<Record>,
                                            name: Name, decision: string, cycle: string)
    requires Belongs(name, r, decision, cycle) && forall x | x in before :: !Belongs(name, x, decision, cycle)
    ensures FirstBelonging(before + [r] + after, name, decision, cycle) == Some(r)
  {
    var all := before + [r] + after;
    if before == [] {
      assert all[0] == r;
    } else {
      NewestIsSelected(before[1..], r, after, name, decision, cycle);
      assert all[0] == before[0] && all[1..] == before[1..] + [r] + after;
    }
  }

  /** For a briefing: every record of its decision belongs, and a construction of its cycle. */
  lemma BriefingSelects(b: Record, h: Histories, r: Record)
    ensures
      var d, c := b.decisionId, if b.cycleId != "" then b.cycleId else b.cycleKey;
      var s := Select(Some(b), h);
      && s == Records(FirstBelonging(h.decisions, CioDecision, d, c), Some(b),
                      FirstBelonging(h.snapshots, EvidenceSnapshot, d, c),
                      FirstBelonging(h.constructions, PortfolioConstruction, d, c),
                      FirstBelonging(h.evaluations, DecisionEvaluation, d, c))
      && (Belongs(CioDecision, r, d, c) <==> d != "" && (r.decisionId == d || (r.decisionId == "" && r.identifier == d)))
      && (Belongs(EvidenceSnapshot, r, d, c) <==> d != "" && r.decisionId == d)
      && (Belongs(DecisionEvaluation, r, d, c) <==> d != "" && r.decisionId == d)
      && (Belongs(PortfolioConstruction, r, d, c) <==> (d != "" && r.decisionId == d) || MatchesCycle(r, c))
  {
  }

  /** Without a briefing nothing is selected. */
  lemma NoBriefingSelectsNothing(h: Histories)
    ensures Select(None, h) == Records(None, None, None, None, None)
  {
  }

  /** Some text around `part` makes up `text`. */
  ghost predicate Surrounds(text: string, part: string)
  {
    exists before: string, after: string :: text == before + part + after
  }

  lemma ContainsIffSurrounds(text: string, part: string)
    ensures Contains(text, part) <==> Surrounds(text, part)
  {
    if i :| 0 <= i <= |text| && OccursAt(text, part, i) {
      assert text == text[..i] + part + text[i + |part|..];
    }
    if before: string, after: string :| text == before + part + after {
      assert OccursAt(text, part, |before|);
    }
  }

  /** A construction is taken for its own cycle only; one without is taken for exactly the
      cycles whose name occurs somewhere inside its journal's name. */
  lemma JournalMatchIff(r: Record, cycle: string)
    ensures r.cycleId == "" && r.cycleKey == "" ==>
              (MatchesCycle(r, cycle) <==> cycle != "" && r.journal.Some? && r.journal.value != "" && Surrounds(r.journal.value, cycle))
    ensures r.cycleId != "" ==> (MatchesCycle(r, cycle) <==> cycle == r.cycleId)
    ensures r.cycleId == "" && r.cycleKey != "" ==> (MatchesCycle(r, cycle) <==> cycle == r.cycleKey)
  {
    if r.journal.Some? {
      ContainsIffSurrounds(r.journal.value, cycle);
    }
  }

  /** No journal of a construction without a cycle of its own names two of the cycles. */
  ghost predicate JournalsNameOneCycle(constructions: seq<Record>, cycles: set<string>)
  {
    forall r, c, c' | r in constructions && First(r.cycleId, r.cycleKey) == "" && r.journal.Some? && c in cycles && c' in cycles
                      && Surrounds(r.journal.value, c) && Surrounds(r.journal.value, c') :: c == c'
  }

  predicate MatchesOneCycle(constructions: seq<Record>, cycles: set<string>)
  {
    forall r, c, c' | r in constructions && c in cycles && c' in cycles && MatchesCycle(r, c) && MatchesCycle(r, c') :: c == c'
  }

  lemma MatchesOneCycleIff(constructions: seq<Record>, cycles: set<string>)
    requires "" !in cycles
    ensures MatchesOneCycle(constructions, cycles) <==> JournalsNameOneCycle(constructions, cycles)
  {
    forall r, c | r in constructions && c in cycles && First(r.cycleId, r.cycleKey) == ""
      ensures MatchesCycle(r, c) <==> r.journal.Some? && Surrounds(r.journal.value, c)
    {
      JournalMatchIff(r, c);
    }
  }

  /** A concrete ambiguity: the journal of cycle "c10" is taken for cycle "c1" as well. */
  lemma JournalOfLongerNameMatches(r: Record)
    requires First(r.cycleId, r.cycleKey) == "" && r.journal == Some("run:c10")
    ensures MatchesCycle(r, "c10") && MatchesCycle(r, "c1") && "c10" != "c1"
  {
    assert OccursAt("run:c10", "c10", 4) && OccursAt("run:c10", "c1", 4);
  }

  // ---------------------------------------------------------------- building the export

  datatype Issue =
    | LineageUnproven | Mismatch(name: Name)
    | DecisionIdMissing | BriefingMissing | DecisionMissing | EvidenceMissing
    | ConstructionMissing | CodeVersionMissing
    | CycleCodeVersionMissing | QueueMissing | QueueTimeMismatch
    | CandidateCountMismatch | PacketCountMismatch

  datatype Audit = Audit(auditable: bool, issues: seq<Issue>, cycleScope: bool)

  datatype Evaluation = Evaluation(recorded: bool, status: string, dueAt: Option<int>, source: string)

  datatype Funnel = Funnel(considered: Option<int>, qualified: Option<int>, rejected: Option<int>,
                           packets: Option<int>, decisions: Option<int>, reconciled: Option<Reconciliation>)

  datatype Reconciliation = Reconciliation(candidates: bool, packets: bool)

  datatype Candidate = Candidate(identifier: string, reviewAt: Option<int>)

  datatype Bundle = Bundle(
    decision: string, cycle: string, decidedAt: Option<int>,
    records: Records, considered: seq<Candidate>,
    audit: Audit, aligned: bool, evaluation: Evaluation, funnel: Funnel)

  const NO_EXECUTABLE_ACTIONS: set<string> :=
    {"hold", "watch", "insufficient_evidence", "no_superior_opportunity", "no_material_change"}

  function Lower(text: string): (r: string)
    ensures |r| == |text|
    ensures forall i | 0 <= i < |text| :: r[i] == if 'A' <= text[i] <= 'Z' then text[i] - 'A' + 'a' else text[i]
  {
    if text == "" then ""
    else [if 'A' <= text[0] <= 'Z' then text[0] - 'A' + 'a' else text[0]] + Lower(text[1..])
  }

  predicate VersionRecorded(r: Option<Record>)
  {
    r.Some? && r.value.codeVersion != "" && Lower(r.value.codeVersion) != "unknown"
  }

  function TargetDecision(s: Records): string
  {
    First(DecisionOf(DailyBriefing, s.briefing), DecisionOf(CioDecision, s.decision))
  }

  function TargetCycle(s: Records): string
  {
    First(First(CycleOf(s.briefing), CycleOf(s.decision)), CycleOf(s.evidence))
  }

  /** What is wrong with a supplied record, if anything: such a record is dropped. */
  function Objection(name: Name, s: Records): Option<Issue>
  {
    var r := s.Get(name);
    if r.None? || name.DailyBriefing? then None
    else
      var id := DecisionOf(name, r);
      if name.PortfolioConstruction? then
        if (id != "" && id == TargetDecision(s)) || MatchesCycle(r.value, TargetCycle(s)) then None
        else Some(LineageUnproven)
      else if TargetDecision(s) != "" && id != TargetDecision(s) then Some(Mismatch(name))
      else None
  }

  function Kept(name: Name, s: Records): Option<Record>
  {
    if Objection(name, s).Some? then None else s.Get(name)
  }

  function KeptRecords(s: Records): Records
  {
    Records(Kept(CioDecision, s), Kept(DailyBriefing, s), Kept(EvidenceSnapshot, s),
            Kept(PortfolioConstruction, s), Kept(DecisionEvaluation, s))
  }

  function Objections(s: Records, n: nat): seq<Issue>
    requires n <= |NAMES|
  {
    if n == 0 then []
    else Objections(s, n - 1) + Noted(Objection(NAMES[n - 1], s))
  }

  function Noted(issue: Option<Issue>): seq<Issue> { if issue.Some? then [issue.value] else [] }

  function When(condition: bool, issue: Issue): seq<Issue> { if condition then [issue] else [] }

  predicate Executable(decision: Option<Record>)
  {
    decision.Some? && decision.value.action != "" && decision.value.action !in NO_EXECUTABLE_ACTIONS
  }

  /** `dict.fromkeys`: the first occurrence of each issue. */
  function Unique(issues: seq<Issue>): (u: seq<Issue>)
    ensures forall i :: i in u <==> i in issues
    ensures (forall i, j | 0 <= i < j < |issues| :: issues[i] != issues[j]) ==> u == issues
  {
    if issues == [] then []
    else
      var rest := Unique(issues[..|issues| - 1]);
      if issues[|issues| - 1] in rest then rest else rest + [issues[|issues| - 1]]
  }

  function AllIssues(s: Records): seq<Issue>
  {
    var k := KeptRecords(s);
    Objections(s, |NAMES|)
    + When(TargetDecision(s) == "", DecisionIdMissing)
    + When(k.briefing.None?, BriefingMissing)
    + When(k.decision.None?, DecisionMissing)
    + When(k.evidence.None?, EvidenceMissing)
    + When(Executable(k.decision) && k.construction.None?, ConstructionMissing)
    + When(!VersionRecorded(k.decision), CodeVersionMissing)
  }

  const UNCOUNTED := Funnel(None, None, None, None, None, None)

  function Build(s: Records, decidedAt: Option<int>, evaluation: Evaluation): Bundle
  {
    var issues := Unique(AllIssues(s));
    Bundle(TargetDecision(s), TargetCycle(s), decidedAt, KeptRecords(s), [],
           Audit(issues == [], issues, false), issues == [], evaluation, UNCOUNTED)
  }

  /** One pass over the five records, keeping or dropping each. */
  method SortRecords(s: Records, decision: string, cycle: string) returns (kept: Records, issues: seq<Issue>)
    requires decision == TargetDecision(s) && cycle == TargetCycle(s)
    ensures kept == KeptRecords(s) && issues == Objections(s, |NAMES|)
  {
    issues := [];
    kept := Records(None, None, None, None, None);
    for i := 0 to |NAMES|
      invariant issues == Objections(s, i)
      invariant kept.decision == if 0 < i then Kept(CioDecision, s) else None
      invariant kept.briefing == if 1 < i then Kept(DailyBriefing, s) else None
      invariant kept.evidence == if 2 < i then Kept(EvidenceSnapshot, s) else None
      invariant kept.construction == if 3 < i then Kept(PortfolioConstruction, s) else None
      invariant kept.evaluation == if 4 < i then Kept(DecisionEvaluation, s) else None
    {
      var name := NAMES[i];
      var r := s.Get(name);
      if r.None? {
        continue;
      }
      var id := DecisionOf(name, r);
      if name == PortfolioConstruction {
        if !(id != "" && id == decision) && !MatchesCycle(r.value, cycle) {
          issues := issues + [LineageUnproven];
          continue;
        }
      } else if name != DailyBriefing && decision != "" {
        if id == "" || id != decision {
          issues := issues + [Mismatch(name)];
          continue;
        }
      }
      kept := kept.With(name, r);
    }
  }

  /** The exporter. */
  method BuildExport(s: Records, decidedAt: Option<int>, evaluation: Evaluation) returns (b: Bundle)
    ensures b == Build(s, decidedAt, evaluation)
  {
    var decision := First(DecisionOf(DailyBriefing, s.briefing), DecisionOf(CioDecision, s.decision));
    var cycle := First(First(CycleOf(s.briefing), CycleOf(s.decision)), CycleOf(s.evidence));
    var kept, issues := SortRecords(s, decision, cycle);
    issues := issues + When(decision == "", DecisionIdMissing);
    issues := issues + When(kept.briefing.None?, BriefingMissing);
    issues := issues + When(kept.decision.None?, DecisionMissing);
    issues := issues + When(kept.evidence.None?, EvidenceMissing);
    issues := issues + When(Executable(kept.decision) && kept.construction.None?, ConstructionMissing);
    issues := issues + When(!VersionRecorded(kept.decision), CodeVersionMissing);
    assert issues == AllIssues(s);
    var unique := Unique(issues);
    b := Bundle(decision, cycle, decidedAt, kept, [],
                Audit(unique == [], unique, false), unique == [], evaluation, UNCOUNTED);
  }

  lemma {:induction false} ObjectionsUpTo(s: Records, n: nat, issue: Issue)
    requires n <= |NAMES|
    ensures issue in Objections(s, n) <==> exists m | 0 <= m < n :: Objection(NAMES[m], s) == Some(issue)
  {
    if n > 0 {
      ObjectionsUpTo(s, n - 1, issue);
    }
  }

  lemma ObjectionsAre(s: Records, issue: Issue)
    ensures issue in Objections(s, |NAMES|) <==> exists n :: Objection(n, s) == Some(issue)
  {
    ObjectionsUpTo(s, |NAMES|, issue);
    if n :| Objection(n, s) == Some(issue) {
      assert n == NAMES[0] || n == NAMES[1] || n == NAMES[2] || n == NAMES[3] || n == NAMES[4];
    }
  }

  /** What `Build` reports, issue by issue. */
  lemma BuildReports(s: Records, issue: Issue)
    ensures issue in AllIssues(s) <==>
      || (exists n :: Objection(n, s) == Some(issue))
      || (issue.DecisionIdMissing? && TargetDecision(s) == "")
      || (issue.BriefingMissing? && s.briefing.None?)
      || (issue.DecisionMissing? && Kept(CioDecision, s).None?)
      || (issue.EvidenceMissing? && Kept(EvidenceSnapshot, s).None?)
      || (issue.ConstructionMissing? && Executable(Kept(CioDecision, s)) && Kept(PortfolioConstruction, s).None?)
      || (issue.CodeVersionMissing? && !VersionRecorded(Kept(CioDecision, s)))
  {
    ObjectionsAre(s, issue);
  }

  /** Which decision and cycle an export is of: the briefing's, else the decision's own, else
      (for the cycle) that of the evidence. */
  lemma TargetsAre(s: Records)
    ensures
      var given := if s.briefing.Some? then s.briefing.value.decisionId else "";
      TargetDecision(s) == if given != "" then given
                           else if s.decision.None? then ""
                           else if s.decision.value.decisionId != "" then s.decision.value.decisionId
                           else s.decision.value.identifier
    ensures
      var first := if s.briefing.None? then ""
                   else if s.briefing.value.cycleId != "" then s.briefing.value.cycleId else s.briefing.value.cycleKey;
      var second := if s.decision.None? then ""
                    else if s.decision.value.cycleId != "" then s.decision.value.cycleId else s.decision.value.cycleKey;
      var third := if s.evidence.None? then ""
                   else if s.evidence.value.cycleId != "" then s.evidence.value.cycleId else s.evidence.value.cycleKey;
      TargetCycle(s) == if first != "" then first else if second != "" then second else third
  {
  }

  /** A supplied record names another decision than the export's. */
  predicate NamesAnother(s: Records, name: Name)
  {
    && TargetDecision(s) != ""
    && match name
       case CioDecision =>
         s.decision.Some? && (if s.decision.value.decisionId != "" then s.decision.value.decisionId else s.decision.value.identifier) != TargetDecision(s)
       case EvidenceSnapshot => s.evidence.Some? && s.evidence.value.decisionId != TargetDecision(s)
       case DecisionEvaluation => s.evaluation.Some? && s.evaluation.value.decisionId != TargetDecision(s)
       case _ => false
  }

  /** A construction is neither of the export's decision nor of its cycle. */
  predicate Unproven(s: Records)
  {
    && s.construction.Some? && !MatchesCycle(s.construction.value, TargetCycle(s))
    && (s.construction.value.decisionId == "" || s.construction.value.decisionId != TargetDecision(s))
  }

  predicate Reported(s: Records, issue: Issue)
  {
    match issue
    case LineageUnproven => Unproven(s)
    case Mismatch(name) => NamesAnother(s, name)
    case DecisionIdMissing => TargetDecision(s) == ""
    case BriefingMissing => s.briefing.None?
    case DecisionMissing => s.decision.None? || NamesAnother(s, CioDecision)
    case EvidenceMissing => s.evidence.None? || NamesAnother(s, EvidenceSnapshot)
    case ConstructionMissing =>
      && s.decision.Some? && !NamesAnother(s, CioDecision)
      && s.decision.value.action !in {"", "hold", "watch", "insufficient_evidence", "no_superior_opportunity", "no_material_change"}
      && (s.construction.None? || Unproven(s))
    case CodeVersionMissing =>
      || s.decision.None? || NamesAnother(s, CioDecision)
      || s.decision.value.codeVersion == "" || Lower(s.decision.value.codeVersion) == "unknown"
    case _ => false
  }

  /** Where an issue stands in the list. */
  function Rank(issue: Issue): nat
  {
    match issue
    case Mismatch(CioDecision) => 0
    case Mismatch(DailyBriefing) => 1
    case Mismatch(EvidenceSnapshot) => 2
    case Mismatch(PortfolioConstruction) => 3
    case LineageUnproven => 4
    case Mismatch(DecisionEvaluation) => 5
    case DecisionIdMissing => 6
    case BriefingMissing => 7
    case DecisionMissing => 8
    case EvidenceMissing => 9
    case ConstructionMissing => 10
    case CodeVersionMissing => 11
    case CycleCodeVersionMissing => 12
    case QueueMissing => 13
    case QueueTimeMismatch => 14
    case CandidateCountMismatch => 15
    case PacketCountMismatch => 16
  }

  predicate InOrder(issues: seq<Issue>) { forall i, j | 0 <= i < j < |issues| :: Rank(issues[i]) < Rank(issues[j]) }

  lemma ObjectionIs(s: Records, name: Name)
    ensures Objection(name, s) == if NamesAnother(s, name) then Some(Mismatch(name))
                                  else if name == PortfolioConstruction && Unproven(s) then Some(LineageUnproven) else None
  {
  }

  predicate InOrderBelow(issues: seq<Issue>, n: nat)
  {
    InOrder(issues) && forall i | 0 <= i < |issues| :: Rank(issues[i]) < n
  }

  lemma OneMoreInOrder(issues: seq<Issue>, more: seq<Issue>, n: nat, m: nat)
    requires InOrderBelow(issues, n) && n <= m && |more| <= 1 && (more != [] ==> n <= Rank(more[0]) < m)
    ensures InOrderBelow(issues + more, m)
  {
  }

  lemma {:induction false} ObjectionsAreInOrder(s: Records, n: nat)
    requires n <= |NAMES|
    ensures InOrderBelow(Objections(s, n), if n <= 3 then n else n + 1)
  {
    if n > 0 {
      ObjectionsAreInOrder(s, n - 1);
      ObjectionIs(s, NAMES[n - 1]);
      OneMoreInOrder(Objections(s, n - 1), Noted(Objection(NAMES[n - 1], s)),
                     if n <= 4 then n - 1 else n, if n <= 3 then n else n + 1);
    }
  }

  lemma IssuesAreInOrder(s: Records)
    ensures InOrderBelow(AllIssues(s), 12)
  {
    var k := KeptRecords(s);
    var i := Objections(s, |NAMES|);
    ObjectionsAreInOrder(s, |NAMES|);
    OneMoreInOrder(i, When(TargetDecision(s) == "", DecisionIdMissing), 6, 7);
    i := i + When(TargetDecision(s) == "", DecisionIdMissing);
    OneMoreInOrder(i, When(k.briefing.None?, BriefingMissing), 7, 8);
    i := i + When(k.briefing.None?, BriefingMissing);
    OneMoreInOrder(i, When(k.decision.None?, DecisionMissing), 8, 9);
    i := i + When(k.decision.None?, DecisionMissing);
    OneMoreInOrder(i, When(k.evidence.None?, EvidenceMissing), 9, 10);
    i := i + When(k.evidence.None?, EvidenceMissing);
    OneMoreInOrder(i, When(Executable(k.decision) && k.construction.None?, ConstructionMissing), 10, 11);
    i := i + When(Executable(k.decision) && k.construction.None?, ConstructionMissing);
    OneMoreInOrder(i, When(!VersionRecorded(k.decision), CodeVersionMissing), 11, 12);
  }

  lemma KeptAre(s: Records)
    ensures KeptRecords(s) == Records(if NamesAnother(s, CioDecision) then None else s.decision, s.briefing,
                                      if NamesAnother(s, EvidenceSnapshot) then None else s.evidence,
                                      if Unproven(s) then None else s.construction,
                                      if NamesAnother(s, DecisionEvaluation) then None else s.evaluation)
  {
    ObjectionIs(s, CioDecision);
    ObjectionIs(s, DailyBriefing);
    ObjectionIs(s, EvidenceSnapshot);
    ObjectionIs(s, PortfolioConstruction);
    ObjectionIs(s, DecisionEvaluation);
  }

  lemma ObjectedIff(s: Records, issue: Issue)
    ensures (exists n :: Objection(n, s) == Some(issue)) <==>
      (issue.Mismatch? && NamesAnother(s, issue.name)) || (issue.LineageUnproven? && Unproven(s))
  {
    ObjectionIs(s, if issue.Mismatch? then issue.name else PortfolioConstruction);
    if n :| Objection(n, s) == Some(issue) {
      ObjectionIs(s, n);
    }
  }

  lemma ReportedIff(s: Records, issue: Issue)
    ensures issue in AllIssues(s) <==> Reported(s, issue)
  {
    BuildReports(s, issue);
    ObjectedIff(s, issue);
    KeptAre(s);
  }

  /** What an export of these records holds: the records that name its decision, a
      construction proved by decision or cycle, and the briefing; every issue there is, once,
      in the order of the records and then of the checks; it is auditable when there is none. */
  ghost predicate Exports(b: Bundle, s: Records)
  {
    && (forall issue :: issue in b.audit.issues <==> Reported(s, issue)) && InOrderBelow(b.audit.issues, 12)
    && (b.audit.auditable <==> b.audit.issues == []) && b.aligned == b.audit.auditable && !b.audit.cycleScope
    && b.records == Records(if NamesAnother(s, CioDecision) then None else s.decision, s.briefing,
                            if NamesAnother(s, EvidenceSnapshot) then None else s.evidence,
                            if Unproven(s) then None else s.construction,
                            if NamesAnother(s, DecisionEvaluation) then None else s.evaluation)
    && b.decision == TargetDecision(s) && b.cycle == TargetCycle(s)
    && b.considered == [] && b.funnel == Funnel(None, None, None, None, None, None)
  }

  lemma ExportIs(s: Records, decidedAt: Option<int>, e: Evaluation)
    ensures Exports(Build(s, decidedAt, e), s)
    ensures Build(s, decidedAt, e).decidedAt == decidedAt && Build(s, decidedAt, e).evaluation == e
  {
    IssuesAreInOrder(s);
    KeptAre(s);
    forall issue
      ensures issue in AllIssues(s) <==> Reported(s, issue)
    {
      ReportedIff(s, issue);
    }
  }

  /** Exporting what the selector returned never drops a record. */
  lemma SelectedRecordsRaiseNoObjection(briefing: Option<Record>, h: Histories, name: Name)
    ensures Objection(name, Select(briefing, h)).None?
    ensures Kept(name, Select(briefing, h)) == Select(briefing, h).Get(name)
  {
  }

  /** Exporting what was selected for the briefing includes the construction, which is not of
      the briefing's own decision: its cycle is the only reason. */
  predicate ExportedByCycle(b: Record, h: Histories, r: Record)
  {
    && KeptRecords(Select(Some(b), h)).construction == Some(r)
    && !(b.decisionId != "" && r.decisionId == b.decisionId)
  }

  predicate DrawnFrom(h: Histories, constructions: seq<Record>) { forall r | r in h.constructions :: r in constructions }

  /** Some briefing of the cycle exports a given matching construction. */
  lemma MatchIsExported(r: Record, cycle: string) returns (b: Record, h: Histories)
    requires MatchesCycle(r, cycle)
    ensures CycleOf(Some(b)) == cycle && h.constructions == [r] && ExportedByCycle(b, h, r)
  {
    b := Record("", "", cycle, "", None, "", "", "", None);
    h := Histories([], [], [r], []);
  }

  lemma ExportMatches(b: Record, h: Histories, r: Record)
    requires ExportedByCycle(b, h, r)
    ensures r in h.constructions && MatchesCycle(r, CycleOf(Some(b)))
  {
  }

  /** The selection and the export are unambiguous, so that no construction is ever exported by
      cycle for two different ones of the given cycles, whatever histories are drawn from the
      given constructions, exactly when no journal names two of the cycles. */
  lemma SelectionIsUnambiguousIff(constructions: seq<Record>, cycles: set<string>)
    requires "" !in cycles
    ensures
      (forall b, h, b', h', r |
         && DrawnFrom(h, constructions) && DrawnFrom(h', constructions)
         && CycleOf(Some(b)) in cycles && CycleOf(Some(b')) in cycles
         && ExportedByCycle(b, h, r) && ExportedByCycle(b', h', r) :: CycleOf(Some(b)) == CycleOf(Some(b')))
      <==> JournalsNameOneCycle(constructions, cycles)
  {
    MatchesOneCycleIff(constructions, cycles);
    if MatchesOneCycle(constructions, cycles) {
      forall b, h, b', h', r |
        && DrawnFrom(h, constructions) && DrawnFrom(h', constructions)
        && CycleOf(Some(b)) in cycles && CycleOf(Some(b')) in cycles
        && ExportedByCycle(b, h, r) && ExportedByCycle(b', h', r)
        ensures CycleOf(Some(b)) == CycleOf(Some(b'))
      {
        ExportMatches(b, h, r);
        ExportMatches(b', h', r);
      }
    } else {
      var r, c, c' :| r in constructions && c in cycles && c' in cycles && MatchesCycle(r, c) && MatchesCycle(r, c') && c != c';
      var b, h := MatchIsExported(r, c);
      var b', h' := MatchIsExported(r, c');
      assert DrawnFrom(h, constructions) && DrawnFrom(h', constructions);
    }
  }

  /** For any supplied records: an auditable export holds only records of its own decision,
      apart from a construction proved by its cycle and a briefing without an identifier. */
  lemma AuditableExportIsOneLineage(s: Records, decidedAt: Option<int>, e: Evaluation, name: Name)
    ensures
      var b := Build(s, decidedAt, e);
      b.audit.auditable ==>
        && b.decision != ""
        && b.records.decision.Some? && b.records.briefing.Some? && b.records.evidence.Some?
        && (b.records.Get(name).Some? ==>
              || DecisionOf(name, b.records.Get(name)) == b.decision
              || (name.PortfolioConstruction? && MatchesCycle(b.records.Get(name).value, b.cycle))
              || (name.DailyBriefing? && DecisionOf(name, b.records.Get(name)) == ""))
  {
  }

  /** No issue is found exactly when no record is objected to and none of the checks after the
      loop fails. */
  lemma AuditableIffNothingFound(s: Records, decidedAt: Option<int>, e: Evaluation)
    ensures
      var k := KeptRecords(s);
      Build(s, decidedAt, e).audit.auditable <==>
        && (forall name: Name :: Objection(name, s).None?)
        && TargetDecision(s) != "" && k.briefing.Some? && k.decision.Some? && k.evidence.Some?
        && (Executable(k.decision) ==> k.construction.Some?) && VersionRecorded(k.decision)
  {
    NoneIn(Unique(AllIssues(s)));
    NoneIn(AllIssues(s));
    NoObjections(s);
  }

  /** The exact conditions on the supplied records for an auditable export: decision, briefing
      and evidence are there, everything that names a decision names the decision's own
      (the briefing's identifier, when it has one, included), an executable decision comes
      with its construction, and the code version is recorded. */
  lemma AuditableIffOneLineage(s: Records, decidedAt: Option<int>, e: Evaluation)
    ensures Build(s, decidedAt, e).audit.auditable <==>
      && s.decision.Some? && s.briefing.Some? && s.evidence.Some?
      && var d := DecisionOf(CioDecision, s.decision);
         && d != ""
         && (DecisionOf(DailyBriefing, s.briefing) == "" || DecisionOf(DailyBriefing, s.briefing) == d)
         && DecisionOf(EvidenceSnapshot, s.evidence) == d
         && (s.evaluation.Some? ==> DecisionOf(DecisionEvaluation, s.evaluation) == d)
         && (s.construction.Some? ==>
               DecisionOf(PortfolioConstruction, s.construction) == d || MatchesCycle(s.construction.value, TargetCycle(s)))
         && (Executable(s.decision) ==> s.construction.Some?)
         && VersionRecorded(s.decision)
  {
    AuditableIffNothingFound(s, decidedAt, e);
    assert forall name: Name :: Objection(name, s).None? ==> Kept(name, s) == s.Get(name);
  }

  lemma NoObjections(s: Records)
    ensures Objections(s, |NAMES|) == [] <==> forall name: Name :: Objection(name, s).None?
  {
    NoneIn(Objections(s, |NAMES|));
    if name: Name :| Objection(name, s).Some? {
      ObjectionsAre(s, Objection(name, s).value);
    }
    if Objections(s, |NAMES|) != [] {
      ObjectionsAre(s, Objections(s, |NAMES|)[0]);
    }
  }

  // ---------------------------------------------------------------- enriching

  datatype Queue = Queue(asOf: string, ranked: seq<string>, rejected: seq<string>)

  /** The journal's histories, newest-first; packets are named by their candidate. */
  datatype Journal = Journal(queues: seq<Queue>, candidates: seq<Candidate>, packets: seq<string>)

  const AUTHORITY := "CHIEF_INVESTMENT_OFFICER"

  /** The cycle-level disposition, when it is complete and carries the CIO's authority. */
  predicate Disposed(briefing: Option<Record>)
  {
    && briefing.Some? && briefing.value.disposition.Some?
    && briefing.value.disposition.value.identifier != ""
    && briefing.value.disposition.value.action != ""
    && briefing.value.disposition.value.authority == AUTHORITY
  }

  function AsOf(r: Option<Record>): string { if r.None? then "" else r.value.asOf }

  function MatchingQueue(queues: seq<Queue>, asOf: string): (q: Option<Queue>)
    ensures q.Some? ==> q.value in queues && q.value.asOf == asOf != ""
    ensures q.None? ==> asOf == "" || forall x | x in queues :: x.asOf != asOf
  {
    if asOf == "" || queues == [] then None
    else if queues[0].asOf == asOf then Some(queues[0])
    else MatchingQueue(queues[1..], asOf)
  }

  function Ranked(q: Option<Queue>): seq<string> { if q.None? then [] else q.value.ranked }
  function Rejected(q: Option<Queue>): seq<string> { if q.None? then [] else q.value.rejected }

  function PacketCount(ranked: seq<string>, packets: seq<string>): (n: nat)
    ensures n <= |ranked|
  {
    if ranked == [] then 0
    else PacketCount(ranked[1..], packets) + if ranked[0] != "" && ranked[0] in packets then 1 else 0
  }

  function FunnelOf(q: Option<Queue>, packets: seq<string>): Funnel
  {
    Funnel(Some(|Ranked(q) + Rejected(q)|), Some(|Ranked(q)|), Some(|Rejected(q)|),
           Some(PacketCount(Ranked(q), packets)), Some(|Ranked(q)|), None)
  }

  /** Candidates of the queue, the newest record of each. */
  function Relevant(candidates: seq<Candidate>, ids: set<string>): seq<Candidate>
  {
    if candidates == [] then []
    else if candidates[0].identifier != "" && candidates[0].identifier in ids
    then [candidates[0]] + Relevant(candidates[1..], ids - {candidates[0].identifier})
    else Relevant(candidates[1..], ids)
  }

  const CYCLE_MISSING: set<Issue> := {DecisionMissing, EvidenceMissing, CodeVersionMissing}

  function Without(issues: seq<Issue>, dropped: set<Issue>): (r: seq<Issue>)
    ensures forall i :: i in r <==> i in issues && i !in dropped
  {
    if issues == [] then []
    else When(issues[0] !in dropped, issues[0]) + Without(issues[1..], dropped)
  }

  function CycleIssues(issues: seq<Issue>, briefing: Option<Record>, q: Option<Queue>): seq<Issue>
  {
    Unique(Without(issues, CYCLE_MISSING)
           + When(!VersionRecorded(briefing), CycleCodeVersionMissing)
           + When(q.None?, QueueMissing)
           + When(q.Some? && q.value.asOf != AsOf(briefing), QueueTimeMismatch))
  }

  predicate CycleLevel(b: Bundle) { Disposed(b.records.briefing) && b.records.decision.None? }

  function Enrich(j: Journal, b: Bundle): Bundle
  {
    var q := MatchingQueue(j.queues, AsOf(b.records.briefing));
    var ids := set id | id in Ranked(q) + Rejected(q) && id != "";
    var enriched := b.(considered := Relevant(j.candidates, ids), funnel := FunnelOf(q, j.packets));
    if CycleLevel(b) then
      var issues := CycleIssues(b.audit.issues, b.records.briefing, q);
      enriched.(audit := Audit(issues == [], issues, true))
    else enriched
  }

  /** The newest queue of the very time is found. */
  lemma {:induction false} NewestQueueIsFound(before: seq<Queue>, q: Queue, after: seq<Queue>, asOf: string)
    requires asOf != "" && q.asOf == asOf && forall x | x in before :: x.asOf != asOf
    ensures MatchingQueue(before + [q] + after, asOf) == Some(q)
  {
    var all := before + [q] + after;
    if before == [] {
      assert all[0] == q;
    } else {
      NewestQueueIsFound(before[1..], q, after, asOf);
      assert all[0] == before[0] && all[1..] == before[1..] + [q] + after;
    }
  }

  /** The positions, from the k-th on, of ranked candidates that have a packet. */
  function Packed(ranked: seq<string>, packets: seq<string>, k: int): set<int>
  {
    set i | k <= i < |ranked| && 0 <= i && ranked[i] != "" && ranked[i] in packets
  }

  lemma {:induction false} PacketCountIs(ranked: seq<string>, packets: seq<string>, k: nat)
    requires k <= |ranked|
    ensures PacketCount(ranked[k..], packets) == |Packed(ranked, packets, k)|
    decreases |ranked| - k
  {
    if k < |ranked| {
      PacketCountIs(ranked, packets, k + 1);
      assert ranked[k..][0] == ranked[k] && ranked[k..][1..] == ranked[k + 1..];
      if ranked[k] != "" && ranked[k] in packets {
        assert Packed(ranked, packets, k) == Packed(ranked, packets, k + 1) + {k};
      } else {
        assert Packed(ranked, packets, k) == Packed(ranked, packets, k + 1);
      }
    }
  }

  /** From the k-th on, the i-th candidate is the newest record of a candidate of the queue. */
  predicate NewestOf(candidates: seq<Candidate>, ids: set<string>, k: int, i: int)
    requires 0 <= k <= i < |candidates|
  {
    && candidates[i].identifier != "" && candidates[i].identifier in ids
    && forall j | k <= j < i :: candidates[j].identifier != candidates[i].identifier
  }

  lemma NewestOfRest(candidates: seq<Candidate>, ids: set<string>, k: int, i: int)
    requires 0 <= k < i < |candidates|
    ensures
      var c := candidates[k];
      var left := if c.identifier != "" && c.identifier in ids then ids - {c.identifier} else ids;
      NewestOf(candidates, ids, k, i) <==> NewestOf(candidates, left, k + 1, i)
  {
  }

  /** The positions, from the k-th on, of the newest records of the queue's candidates. */
  function NewestFrom(candidates: seq<Candidate>, ids: set<string>, k: nat): (at: seq<int>)
    requires k <= |candidates|
    ensures forall m | 0 <= m < |at| :: k <= at[m] < |candidates|
    ensures forall m, n | 0 <= m < n < |at| :: at[m] < at[n]
    decreases |candidates| - k
  {
    if k == |candidates| then []
    else
      var c := candidates[k];
      if c.identifier != "" && c.identifier in ids then [k] + NewestFrom(candidates, ids - {c.identifier}, k + 1)
      else NewestFrom(candidates, ids, k + 1)
  }

  lemma {:induction false} NewestFromHolds(candidates: seq<Candidate>, ids: set<string>, k: nat, i: int)
    requires k <= i < |candidates|
    ensures i in NewestFrom(candidates, ids, k) <==> NewestOf(candidates, ids, k, i)
    decreases |candidates| - k
  {
    if k < i {
      NewestOfRest(candidates, ids, k, i);
      var c := candidates[k];
      NewestFromHolds(candidates, if c.identifier != "" && c.identifier in ids then ids - {c.identifier} else ids, k + 1, i);
    }
  }

  lemma {:induction false} RelevantFrom(candidates: seq<Candidate>, ids: set<string>, k: nat)
    requires k <= |candidates|
    ensures
      var at := NewestFrom(candidates, ids, k);
      Relevant(candidates[k..], ids) == seq(|at|, m requires 0 <= m < |at| => candidates[at[m]])
    decreases |candidates| - k
  {
    if k < |candidates| {
      var c := candidates[k];
      assert candidates[k..][0] == c && candidates[k..][1..] == candidates[k + 1..];
      RelevantFrom(candidates, if c.identifier != "" && c.identifier in ids then ids - {c.identifier} else ids, k + 1);
    }
  }

  /** The considered candidates are the newest records of the queue's candidates, in the order
      of the journal; `at` are their positions. */
  lemma RelevantAre(candidates: seq<Candidate>, ids: set<string>) returns (at: seq<int>)
    ensures forall m | 0 <= m < |at| :: 0 <= at[m] < |candidates|
    ensures forall m, n | 0 <= m < n < |at| :: at[m] < at[n]
    ensures Relevant(candidates, ids) == seq(|at|, m requires 0 <= m < |at| => candidates[at[m]])
    ensures forall i | 0 <= i < |candidates| :: i in at <==> NewestOf(candidates, ids, 0, i)
  {
    at := NewestFrom(candidates, ids, 0);
    RelevantFrom(candidates, ids, 0);
    assert candidates[0..] == candidates;
    forall i | 0 <= i < |candidates|
      ensures i in at <==> NewestOf(candidates, ids, 0, i)
    {
      NewestFromHolds(candidates, ids, 0, i);
    }
  }

  /** What only a candidate-level decision could supply. */
  predicate Forgiven(issue: Issue) { issue == DecisionMissing || issue == EvidenceMissing || issue == CodeVersionMissing }

  /** A cycle-level no-action report: the briefing carries the CIO's complete disposition, and
      the export holds no decision. */
  predicate NoActionReport(b: Bundle)
  {
    && b.records.decision == None && b.records.briefing.Some? && b.records.briefing.value.disposition.Some?
    && var d := b.records.briefing.value.disposition.value;
       d.identifier != "" && d.action != "" && d.authority == "CHIEF_INVESTMENT_OFFICER"
  }

  /** What enriching adds: the queue's candidates and counts; for a cycle-level no-action
      report it also forgives what only a candidate decision could supply, and asks for the
      briefing's code version and the queue of its very time. */
  lemma EnrichedIs(j: Journal, b: Bundle)
    requires InOrderBelow(b.audit.issues, 12)
    ensures
      var r := Enrich(j, b);
      var q := MatchingQueue(j.queues, if b.records.briefing.Some? then b.records.briefing.value.asOf else "");
      var ranked, rejected := if q.Some? then q.value.ranked else [], if q.Some? then q.value.rejected else [];
      && r.funnel == Funnel(Some(|ranked| + |rejected|), Some(|ranked|), Some(|rejected|),
                            Some(|Packed(ranked, j.packets, 0)|), Some(|ranked|), None)
      && r.considered == Relevant(j.candidates, set id | id in ranked + rejected && id != "")
      && r == b.(funnel := r.funnel, considered := r.considered, audit := r.audit)
    ensures !NoActionReport(b) ==> Enrich(j, b).audit == b.audit
    ensures
      var audit := Enrich(j, b).audit;
      var v := b.records.briefing;
      NoActionReport(b) ==>
        && InOrderBelow(audit.issues, 15) && audit.cycleScope && (audit.auditable <==> audit.issues == [])
        && forall issue :: issue in audit.issues <==>
             || (issue in b.audit.issues && !Forgiven(issue))
             || (issue == CycleCodeVersionMissing && (v.value.codeVersion == "" || Lower(v.value.codeVersion) == "unknown"))
             || (issue == QueueMissing && MatchingQueue(j.queues, v.value.asOf) == None)
  {
    var q := MatchingQueue(j.queues, AsOf(b.records.briefing));
    PacketCountIs(Ranked(q), j.packets, 0);
    assert Ranked(q)[0..] == Ranked(q);
    assert CycleLevel(b) <==> NoActionReport(b);
    if NoActionReport(b) {
      CycleIssuesAre(b.audit.issues, b.records.briefing, q);
      CycleIssuesAreInOrder(b.audit.issues, b.records.briefing, q);
    }
  }

  lemma CycleIssuesAre(issues: seq<Issue>, briefing: Option<Record>, q: Option<Queue>)
    requires briefing.Some? && (q.Some? ==> q.value.asOf == AsOf(briefing))
    ensures forall issue :: issue in CycleIssues(issues, briefing, q) <==>
      || (issue in issues && !Forgiven(issue))
      || (issue == CycleCodeVersionMissing && (briefing.value.codeVersion == "" || Lower(briefing.value.codeVersion) == "unknown"))
      || (issue == QueueMissing && q.None?)
  {
  }

  lemma OrderedIsUnique(issues: seq<Issue>, n: nat)
    requires InOrderBelow(issues, n)
    ensures Unique(issues) == issues
  {
    assert forall i, j | 0 <= i < j < |issues| :: Rank(issues[i]) != Rank(issues[j]);
  }

  lemma CycleIssuesAreInOrder(issues: seq<Issue>, briefing: Option<Record>, q: Option<Queue>)
    requires InOrderBelow(issues, 12) && (q.Some? ==> q.value.asOf == AsOf(briefing))
    ensures InOrderBelow(CycleIssues(issues, briefing, q), 15)
  {
    var kept := Without(issues, CYCLE_MISSING);
    WithoutKeepsOrder(issues, CYCLE_MISSING, 12);
    var version, missing := When(!VersionRecorded(briefing), CycleCodeVersionMissing), When(q.None?, QueueMissing);
    OneMoreInOrder(kept, version, 12, 13);
    OneMoreInOrder(kept + version, missing, 13, 14);
    var all := kept + version + missing;
    assert all + When(q.Some? && q.value.asOf != AsOf(briefing), QueueTimeMismatch) == all;
    OrderedIsUnique(all, 14);
    assert CycleIssues(issues, briefing, q) == all;
  }

  lemma {:induction false} WithoutKeepsOrder(issues: seq<Issue>, dropped: set<Issue>, n: nat)
    requires InOrderBelow(issues, n)
    ensures InOrderBelow(Without(issues, dropped), n)
  {
    if issues != [] {
      var rest := issues[1..];
      WithoutKeepsOrder(rest, dropped, n);
      forall i | 0 <= i < |Without(rest, dropped)|
        ensures Rank(issues[0]) < Rank(Without(rest, dropped)[i])
      {
        assert Without(rest, dropped)[i] in rest;
      }
    }
  }

  // ---------------------------------------------------------------- refining

  function Earliest(dates: seq<int>): (d: int)
    requires dates != []
    ensures d in dates && forall x | x in dates :: d <= x
  {
    assert dates == [dates[0]] + dates[1..];
    if |dates| == 1 then dates[0]
    else
      var rest := Earliest(dates[1..]);
      if dates[0] < rest then dates[0] else rest
  }

  function ReviewDates(considered: seq<Candidate>, decidedAt: Option<int>): (dates: seq<int>)
    ensures forall d :: d in dates <==>
      exists c :: c in considered && c.reviewAt == Some(d) && (decidedAt.None? || decidedAt.value <= d)
  {
    if considered == [] then []
    else
      var rest := ReviewDates(considered[1..], decidedAt);
      var c := considered[0];
      if c.reviewAt.Some? && (decidedAt.None? || decidedAt.value <= c.reviewAt.value) then [c.reviewAt.value] + rest
      else rest
  }

  const THIRTY_DAYS := 2_592_000_000_000

  function DueAt(considered: seq<Candidate>, decidedAt: Option<int>): (Option<int>, string)
  {
    var dates := ReviewDates(considered, decidedAt);
    if dates != [] then (Some(Earliest(dates)), "earliest_considered_candidate_review_at")
    else if decidedAt.Some? then (Some(decidedAt.value + THIRTY_DAYS), "cycle_no_action_policy_default_30_days")
    else (None, "unresolved_missing_decision_time")
  }

  /** A review that can serve as evaluation date: recorded, and not before the decision. */
  predicate Eligible(c: Candidate, decidedAt: Option<int>)
  {
    c.reviewAt.Some? && (decidedAt.None? || decidedAt.value <= c.reviewAt.value)
  }

  /** The evaluation date of a no-action report is the earliest eligible review of a
      considered candidate; without one, thirty days after the decision; else none.  The
      source says which. */
  lemma DueDateIsEarliestReview(considered: seq<Candidate>, decidedAt: Option<int>)
    ensures
      var (due, source) := DueAt(considered, decidedAt);
      if exists c :: c in considered && Eligible(c, decidedAt) then
        && (exists c :: c in considered && Eligible(c, decidedAt) && c.reviewAt == due)
        && (forall c | c in considered && Eligible(c, decidedAt) :: due.Some? && due.value <= c.reviewAt.value)
        && source == "earliest_considered_candidate_review_at"
      else if decidedAt.Some? then
        due == Some(decidedAt.value + 2_592_000_000_000) && source == "cycle_no_action_policy_default_30_days"
      else due == None && source == "unresolved_missing_decision_time"
  {
    var dates := ReviewDates(considered, decidedAt);
    if c :| c in considered && Eligible(c, decidedAt) {
      assert c.reviewAt.value in dates;
      var first: Candidate :| first in considered && first.reviewAt == Some(Earliest(dates))
                              && (decidedAt.None? || decidedAt.value <= Earliest(dates));
      assert Eligible(first, decidedAt);
    }
  }

  function Marked(a: Audit, issue: Issue): Audit
  {
    a.(auditable := false, issues := if issue in a.issues then a.issues else a.issues + [issue])
  }

  predicate CandidatesBalance(f: Funnel)
  {
    && f.considered.Some? && f.qualified.Some? && f.rejected.Some?
    && f.considered.value == f.qualified.value + f.rejected.value
  }

  predicate PacketsBalance(f: Funnel)
  {
    f.qualified.Some? && f.packets.Some? && f.packets.value == f.qualified.value
  }

  function RefineEvaluation(b: Bundle): Evaluation
  {
    if b.audit.cycleScope && !b.evaluation.recorded && b.evaluation.dueAt.None? then
      var (due, source) := DueAt(b.considered, b.decidedAt);
      b.evaluation.(dueAt := due, source := source,
                    status := if due.Some? then "pending_cycle_review" else "pending_without_resolved_due_date")
    else b.evaluation
  }

  function RefineAudit(b: Bundle): Audit
  {
    var a := if CandidatesBalance(b.funnel) then b.audit else Marked(b.audit, CandidateCountMismatch);
    if PacketsBalance(b.funnel) then a else Marked(a, PacketCountMismatch)
  }

  function Refine(b: Bundle): Bundle
  {
    var audit := RefineAudit(b);
    b.(funnel := b.funnel.(decisions := Some(if b.records.decision.Some? then 1 else 0),
                           reconciled := Some(Reconciliation(CandidatesBalance(b.funnel), PacketsBalance(b.funnel)))),
       evaluation := RefineEvaluation(b),
       audit := audit,
       aligned := audit.auditable)
  }

  /** The refinement as the program does it, updating its own copy step by step. */
  method RefineReport(bundle: Bundle) returns (report: Bundle)
    ensures report == Refine(bundle)
  {
    report := bundle;
    var candidatesBalance := CandidatesBalance(report.funnel);
    var packetsBalance := PacketsBalance(report.funnel);
    report := report.(funnel := report.funnel.(
      decisions := Some(if report.records.decision.Some? then 1 else 0),
      reconciled := Some(Reconciliation(candidatesBalance, packetsBalance))));
    if report.audit.cycleScope {
      var evaluation := report.evaluation;
      if !evaluation.recorded && evaluation.dueAt.None? {
        var (due, source) := DueAt(report.considered, report.decidedAt);
        evaluation := evaluation.(dueAt := due, source := source,
          status := if due.Some? then "pending_cycle_review" else "pending_without_resolved_due_date");
        report := report.(evaluation := evaluation);
      }
    }
    if !candidatesBalance {
      report := report.(audit := Marked(report.audit, CandidateCountMismatch));
    }
    if !packetsBalance {
      report := report.(audit := Marked(report.audit, PacketCountMismatch));
    }
    report := report.(aligned := report.audit.auditable);
  }

  /** Only a cycle-level report without a recorded evaluation and without a due date gets one:
      the earliest eligible review, else thirty days after the decision, else none. */
  lemma RefinedEvaluationIs(b: Bundle)
    ensures
      var was, now := b.evaluation, Refine(b).evaluation;
      if b.audit.cycleScope && !was.recorded && was.dueAt.None? then
        && now == was.(dueAt := now.dueAt, source := now.source, status := now.status)
        && now.status == (if now.dueAt.Some? then "pending_cycle_review" else "pending_without_resolved_due_date")
        && if exists c :: c in b.considered && Eligible(c, b.decidedAt) then
             && (exists c :: c in b.considered && Eligible(c, b.decidedAt) && c.reviewAt == now.dueAt)
             && (forall c | c in b.considered && Eligible(c, b.decidedAt) :: now.dueAt.Some? && now.dueAt.value <= c.reviewAt.value)
             && now.source == "earliest_considered_candidate_review_at"
           else if b.decidedAt.Some? then
             && now.dueAt == Some(b.decidedAt.value + 2_592_000_000_000)
             && now.source == "cycle_no_action_policy_default_30_days"
           else now.dueAt == None && now.source == "unresolved_missing_decision_time"
      else now == was
  {
    DueDateIsEarliestReview(b.considered, b.decidedAt);
  }

  /** The funnel is judged on its own counts; each imbalance is an issue, reported once; all
      else but the evaluation stays. */
  lemma RefinedVerdictIs(b: Bundle)
    ensures
      var f, issues, r := b.funnel, b.audit.issues, Refine(b);
      var candidates := && f.considered.Some? && f.qualified.Some? && f.rejected.Some?
                        && f.qualified.value + f.rejected.value == f.considered.value;
      var packets := f.qualified.Some? && f.packets == f.qualified;
      && r.funnel == f.(decisions := Some(if b.records.decision.None? then 0 else 1),
                        reconciled := Some(Reconciliation(candidates, packets)))
      && r.audit.auditable == (b.audit.auditable && candidates && packets)
      && r.audit.issues == issues + (if candidates || CandidateCountMismatch in issues then [] else [CandidateCountMismatch])
                                  + (if packets || PacketCountMismatch in issues then [] else [PacketCountMismatch])
      && r.audit.cycleScope == b.audit.cycleScope && r.aligned == r.audit.auditable
      && r.decision == b.decision && r.cycle == b.cycle && r.decidedAt == b.decidedAt
      && r.records == b.records && r.considered == b.considered
  {
  }

  // ---------------------------------------------------------------- coherence of the verdict

  predicate Coherent(a: Audit) { a.auditable <==> a.issues == [] }

  lemma EnrichKeepsCoherence(j: Journal, b: Bundle)
    requires Coherent(b.audit)
    ensures Coherent(Enrich(j, b).audit)
  {
  }

  /** Refining ends with `aligned` exactly when auditable, whatever the bundle said before. */
  lemma RefineKeepsCoherence(b: Bundle)
    ensures Coherent(b.audit) ==> Coherent(Refine(b).audit)
    ensures Refine(b).aligned == Refine(b).audit.auditable
    ensures Refine(b).audit.auditable <==> b.audit.auditable && CandidatesBalance(b.funnel) && PacketsBalance(b.funnel)
  {
  }

  /** The verdict stays "auditable exactly when no issue is recorded" through all stages, and
      ends equal to the record consistency. */
  lemma VerdictStaysCoherent(s: Records, decidedAt: Option<int>, e: Evaluation, j: Journal)
    ensures
      var built := Build(s, decidedAt, e);
      var enriched := Enrich(j, built);
      var refined := Refine(enriched);
      && Coherent(built.audit) && built.aligned == built.audit.auditable
      && Coherent(enriched.audit)
      && Coherent(refined.audit) && refined.aligned == refined.audit.auditable
  {
    EnrichKeepsCoherence(j, Build(s, decidedAt, e));
    RefineKeepsCoherence(Enrich(j, Build(s, decidedAt, e)));
  }

  lemma RefineIsIdempotent(b: Bundle)
    ensures Refine(Refine(b)) == Refine(b)
  {
  }

  /** Every ranked candidate has its packet. */
  predicate AllPacked(ranked: seq<string>, packets: seq<string>)
  {
    forall i | 0 <= i < |ranked| :: ranked[i] != "" && ranked[i] in packets
  }

  lemma {:induction false} PacketsCoverRankedIff(ranked: seq<string>, packets: seq<string>)
    ensures PacketCount(ranked, packets) == |ranked| <==> AllPacked(ranked, packets)
  {
    if ranked != [] {
      var rest := ranked[1..];
      PacketsCoverRankedIff(rest, packets);
      if AllPacked(ranked, packets) {
        assert AllPacked(rest, packets);
      } else if AllPacked(rest, packets) {
        assert forall i | 1 <= i < |ranked| :: ranked[i] == rest[i - 1];
      }
    }
  }

  /** An enriched funnel always balances on candidates, and on packets exactly when every
      ranked candidate has one; with no matching queue it balances at zero. */
  lemma EnrichedFunnelBalances(j: Journal, b: Bundle)
    ensures
      var f := Enrich(j, b).funnel;
      var ranked := Ranked(MatchingQueue(j.queues, AsOf(b.records.briefing)));
      && CandidatesBalance(f)
      && (PacketsBalance(f) <==> AllPacked(ranked, j.packets))
  {
    var q := MatchingQueue(j.queues, AsOf(b.records.briefing));
    PacketsCoverRankedIff(Ranked(q), j.packets);
    assert Enrich(j, b).funnel == FunnelOf(q, j.packets);
  }

  lemma NoneIn(issues: seq<Issue>)
    ensures issues == [] <==> forall i :: i !in issues
  {
    if issues != [] {
      assert issues[0] in issues;
    }
  }

  /** Without a decision: every issue reported is one that cycle-level reporting forgives. */
  lemma AllForgivenIff(s: Records, issues: seq<Issue>)
    requires s.briefing.Some? && (s.decision.None? || NamesAnother(s, CioDecision))
    requires forall i :: i in issues <==> Reported(s, i)
    ensures (forall i | i in issues :: Forgiven(i))
       <==> TargetDecision(s) != "" && !Unproven(s) && forall name :: !NamesAnother(s, name)
  {
    assert DecisionIdMissing in issues <==> TargetDecision(s) == "";
    assert LineageUnproven in issues <==> Unproven(s);
    forall name
      ensures Mismatch(name) in issues <==> NamesAnother(s, name)
    {
      assert Reported(s, Mismatch(name)) <==> NamesAnother(s, name);
    }
  }

  lemma NoneLeftIff(before: seq<Issue>, after: seq<Issue>, unversioned: bool, unqueued: bool)
    requires forall i :: i in after <==>
      || (i in before && !Forgiven(i)) || (i == CycleCodeVersionMissing && unversioned) || (i == QueueMissing && unqueued)
    ensures after == [] <==> (forall i | i in before :: Forgiven(i)) && !unversioned && !unqueued
  {
    NoneIn(after);
    assert CycleCodeVersionMissing in after || !unversioned;
    assert QueueMissing in after || !unqueued;
  }

  lemma EnrichedVerdictIs(s: Records, b: Bundle, j: Journal)
    requires Exports(b, s) && NoActionReport(b)
    ensures
      var v := s.briefing.value;
      Enrich(j, b).audit.auditable <==>
        && TargetDecision(s) != "" && !Unproven(s) && (forall name :: !NamesAnother(s, name))
        && v.codeVersion != "" && Lower(v.codeVersion) != "unknown" && MatchingQueue(j.queues, v.asOf).Some?
  {
    var v := s.briefing.value;
    AllForgivenIff(s, b.audit.issues);
    EnrichedIs(j, b);
    NoneLeftIff(b.audit.issues, Enrich(j, b).audit.issues, v.codeVersion == "" || Lower(v.codeVersion) == "unknown",
                MatchingQueue(j.queues, v.asOf).None?);
  }

  /** The audit of a cycle-level no-action report, end to end: the refined verdict is
      `auditable` exactly when the decision is identified, no supplied record was dropped, the
      briefing's code version is recorded, the queue of its very time exists, and every
      ranked candidate has its specialist packet. */
  lemma CycleVerdictIs(s: Records, decidedAt: Option<int>, e: Evaluation, j: Journal)
    requires NoActionReport(Build(s, decidedAt, e))
    ensures
      var queue := MatchingQueue(j.queues, s.briefing.value.asOf);
      var version := s.briefing.value.codeVersion;
      Refine(Enrich(j, Build(s, decidedAt, e))).audit.auditable <==>
        && TargetDecision(s) != "" && !Unproven(s) && (forall name :: !NamesAnother(s, name))
        && version != "" && Lower(version) != "unknown"
        && queue.Some? && AllPacked(queue.value.ranked, j.packets)
  {
    var built := Build(s, decidedAt, e);
    ExportIs(s, decidedAt, e);
    EnrichedVerdictIs(s, built, j);
    EnrichedFunnelBalances(j, built);
    RefineKeepsCoherence(Enrich(j, built));
  }
}
