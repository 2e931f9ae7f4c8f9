/**
  The content-addressed history of pending-transaction reports (cio_pending_transactions.py).

  SHA-256 of the semantic payload is taken to be injective: a digest is the content it was
  computed from.  Texts are trimmed, and lower-cased where the program lower-cases them.
*/
module ReportHistory {
  import opened Options

  datatype Trade = Trade(symbol: string, side: string, fromWeight: Option<real>, toWeight: Option<real>, tradeWeight: Option<real>)

  /** `trades` keeps malformed entries as `None`: they count in the numbering. */
  datatype Construction = Construction(id: string, status: string, trades: seq<Option<Trade>>, targets: map<string, real>)

  datatype Briefing = Briefing(
    decisionId: string, identifier: string, cycleId: string, asOf: string, status: string,
    portfolioDecision: string, candidateId: string, decisionCount: Option<int>,
    constructionStatus: string, saysNoChange: bool)

  datatype Row = Row(sequence: int, symbol: string, side: string, fromWeight: Option<real>, toWeight: Option<real>,
                     tradeWeight: Option<real>, status: string)

  /** Everything the fingerprint covers. */
  datatype Content = Content(
    decision: string, construction: string, asOf: string, reportState: string, launchState: string,
    executionState: string, constructionStatus: string, briefingStatus: string, abstention: bool, rows: seq<Row>)

  datatype Digest = Digest(of: Content)

  datatype Report = Report(content: Content, generatedAt: int, fingerprint: Digest)

  // ---------------------------------------------------------------- building a report

  const NO_ACTION_STATUSES: set<string> := {"no_superior_opportunity", "insufficient_evidence", "implementation_blocked"}

  predicate CurrentNonTransaction(b: Briefing)
  {
    && b.status == "current" && b.decisionId != "" && b.candidateId != ""
    && b.decisionCount.Some? && 0 < b.decisionCount.value
    && b.constructionStatus == "" && b.saysNoChange
  }

  predicate GovernedNoAction(b: Option<Briefing>)
  {
    && b.Some?
    && b.value.identifier != "" && b.value.asOf != "" && b.value.portfolioDecision != ""
    && (b.value.status in NO_ACTION_STATUSES || CurrentNonTransaction(b.value))
  }

  /** The diagnostic runner's own, narrower test of the same briefing. */
  predicate RunnerNoAction(b: Option<Briefing>)
  {
    && b.Some?
    && b.value.identifier != "" && b.value.asOf != "" && b.value.portfolioDecision != ""
    && (b.value.status == "no_superior_opportunity" || b.value.status == "insufficient_evidence")
  }

  function DecisionId(b: Option<Briefing>): string
  {
    if b.None? then ""
    else if b.value.decisionId != "" then b.value.decisionId
    else if b.value.identifier != "" then b.value.identifier
    else b.value.cycleId
  }

  function ConstructionId(c: Option<Construction>): string { if c.None? then "" else c.value.id }

  function StatusUnder(execution: string): string
  {
    if execution == "completed" then "executed"
    else if execution == "blocked" then "blocked"
    else if execution == "held" || execution == "paused" then "held"
    else "pending_execution"
  }

  function RowOf(t: Trade, sequence: int, targets: map<string, real>, status: string): Row
  {
    var to := if t.toWeight.Some? then t.toWeight
              else if t.symbol in targets then Some(targets[t.symbol]) else None;
    var weight := if t.tradeWeight.Some? then t.tradeWeight
                  else if t.fromWeight.Some? && to.Some? then Some(to.value - t.fromWeight.value) else None;
    Row(sequence, t.symbol, if t.side == "" then "review" else t.side, t.fromWeight, to, weight, status)
  }

  predicate Usable(t: Option<Trade>) { t.Some? && t.value.symbol != "" }

  function RowsOf(trades: seq<Option<Trade>>, targets: map<string, real>, status: string): seq<Row>
  {
    if trades == [] then []
    else
      var n := |trades| - 1;
      RowsOf(trades[..n], targets, status)
      + (if Usable(trades[n]) then [RowOf(trades[n].value, n + 1, targets, status)] else [])
  }

  /** The row-appending loop, then the in-place status update. */
  method Transactions(c: Option<Construction>, execution: string) returns (rows: seq<Row>)
    ensures rows == if c.None? then [] else RowsOf(c.value.trades, c.value.targets, StatusUnder(execution))
    ensures forall i | 0 <= i < |rows| ::
              rows[i].status == match execution
                                case "completed" => "executed"
                                case "blocked" => "blocked"
                                case "held" => "held"
                                case "paused" => "held"
                                case _ => "pending_execution"
  {
    rows := [];
    if c.None? {
      return;
    }
    var trades := c.value.trades;
    for i := 0 to |trades|
      invariant rows == RowsOf(trades[..i], c.value.targets, "pending_execution")
    {
      assert trades[..i + 1][..i] == trades[..i];
      if trades[i].None? || trades[i].value.symbol == "" {
        continue;
      }
      rows := rows + [RowOf(trades[i].value, i + 1, c.value.targets, "pending_execution")];
    }
    assert trades[..|trades|] == trades;
    var status := StatusUnder(execution);
    ghost var built := rows;
    for i := 0 to |rows|
      invariant |rows| == |built|
      invariant forall j | 0 <= j < |rows| :: rows[j] == if j < i then built[j].(status := status) else built[j]
    {
      rows := rows[i := rows[i].(status := status)];
    }
    RestatedRows(trades, c.value.targets, "pending_execution", status);
    assert rows == RowsOf(trades, c.value.targets, status);
  }

  lemma {:induction false} RestatedRows(trades: seq<Option<Trade>>, targets: map<string, real>, before: string, after: string)
    ensures |RowsOf(trades, targets, after)| == |RowsOf(trades, targets, before)|
    ensures forall j | 0 <= j < |RowsOf(trades, targets, before)| ::
              RowsOf(trades, targets, after)[j] == RowsOf(trades, targets, before)[j].(status := after)
  {
    if trades != [] {
      RestatedRows(trades[..|trades| - 1], targets, before, after);
    }
  }

  function BuildReport(c: Option<Construction>, b: Option<Briefing>, at: int, launchAt: int, execution: string): Report
  {
    var launch := if launchAt <= at then "active" else "scheduled";
    var resolved := if execution != "" then execution else if launch == "scheduled" then "scheduled" else "pending";
    var rows := if c.None? then [] else RowsOf(c.value.trades, c.value.targets, StatusUnder(resolved));
    var state := if rows != [] then "pending_transactions"
                 else if c.Some? || GovernedNoAction(b) then "no_transaction_recommended"
                 else "awaiting_cio_construction";
    var content := Content(DecisionId(b), ConstructionId(c), if b.None? then "" else b.value.asOf, state, launch, resolved,
                           if c.None? then "unavailable" else c.value.status,
                           if b.None? then "" else b.value.status, GovernedNoAction(b), rows);
    Report(content, at, Digest(content))
  }

  predicate Numbered(rows: seq<Row>, bound: int)
  {
    && (forall i | 0 <= i < |rows| :: 1 <= rows[i].sequence <= bound)
    && (forall i, j | 0 <= i < j < |rows| :: rows[i].sequence < rows[j].sequence)
  }

  lemma {:induction false} RowsAreNumbered(trades: seq<Option<Trade>>, targets: map<string, real>, status: string)
    ensures Numbered(RowsOf(trades, targets, status), |trades|)
  {
    if trades != [] {
      RowsAreNumbered(trades[..|trades| - 1], targets, status);
    }
  }

  /** A row tells its trade: symbol, side or "review", weights.  A missing target weight comes
      from the construction, a missing trade weight is the difference of the two others. */
  predicate Tells(r: Row, t: Trade, targets: map<string, real>)
  {
    && r.symbol == t.symbol && t.symbol != "" && r.fromWeight == t.fromWeight
    && (t.side != "" ==> r.side == t.side) && (t.side == "" ==> r.side == "review")
    && (t.toWeight.Some? ==> r.toWeight == t.toWeight)
    && (t.toWeight.None? ==> if t.symbol in targets then r.toWeight == Some(targets[t.symbol]) else r.toWeight == None)
    && (t.tradeWeight.Some? ==> r.tradeWeight == t.tradeWeight)
    && (t.tradeWeight.None? ==>
          if t.fromWeight.Some? && r.toWeight.Some? then r.tradeWeight == Some(r.toWeight.value - t.fromWeight.value)
          else r.tradeWeight == None)
  }

  predicate RowFits(r: Row, trades: seq<Option<Trade>>, targets: map<string, real>, status: string)
  {
    && 1 <= r.sequence <= |trades| && trades[r.sequence - 1].Some?
    && Tells(r, trades[r.sequence - 1].value, targets) && r.status == status
  }

  /** Every row tells the usable trade at its position, with the one status given. */
  lemma {:induction false} RowsFitTrades(trades: seq<Option<Trade>>, targets: map<string, real>, status: string)
    ensures forall r | r in RowsOf(trades, targets, status) :: RowFits(r, trades, targets, status)
  {
    if trades != [] {
      var n := |trades| - 1;
      RowsFitTrades(trades[..n], targets, status);
      forall r | r in RowsOf(trades, targets, status)
        ensures RowFits(r, trades, targets, status)
      {
        if r in RowsOf(trades[..n], targets, status) {
          assert RowFits(r, trades[..n], targets, status);
        }
      }
    }
  }

  /** Every usable trade has its row. */
  lemma {:induction false} UsableTradesHaveRows(trades: seq<Option<Trade>>, targets: map<string, real>, status: string, k: nat)
    requires k < |trades| && trades[k].Some? && trades[k].value.symbol != ""
    ensures exists r :: r in RowsOf(trades, targets, status) && r.sequence == k + 1 && Tells(r, trades[k].value, targets)
  {
    if k < |trades| - 1 {
      UsableTradesHaveRows(trades[..|trades| - 1], targets, status, k);
      var r :| r in RowsOf(trades[..|trades| - 1], targets, status) && r.sequence == k + 1 && Tells(r, trades[k].value, targets);
      assert r in RowsOf(trades, targets, status);
    } else {
      assert RowOf(trades[k].value, k + 1, targets, status) in RowsOf(trades, targets, status);
    }
  }

  /** Only a complete briefing abstains: by one of three statuses, or as a current decision that
      needs no change of the portfolio. */
  lemma AbstainsIff(b: Briefing)
    ensures GovernedNoAction(Some(b)) <==>
      && b.identifier != "" && b.asOf != "" && b.portfolioDecision != ""
      && (|| b.status == "no_superior_opportunity" || b.status == "insufficient_evidence" || b.status == "implementation_blocked"
          || (&& b.status == "current" && b.decisionId != "" && b.candidateId != "" && b.constructionStatus == "" && b.saysNoChange
              && b.decisionCount.Some? && b.decisionCount.value >= 1))
  {
  }

  /** What a report says: the launch by the time, the execution state as given or else by the
      launch, every row with the status of that execution state, and a recommendation exactly
      if there are rows. */
  lemma ReportSays(c: Option<Construction>, b: Option<Briefing>, at: int, launchAt: int, execution: string)
    ensures
      var r := BuildReport(c, b, at, launchAt, execution);
      var rows := r.content.rows;
      && r.generatedAt == at && r.fingerprint == Digest(r.content)
      && r.content.launchState == (if at < launchAt then "scheduled" else "active")
      && r.content.executionState == (if execution != "" then execution else if at < launchAt then "scheduled" else "pending")
      && (forall i | 0 <= i < |rows| ::
            rows[i].status == match r.content.executionState
                              case "completed" => "executed"
                              case "blocked" => "blocked"
                              case "held" => "held"
                              case "paused" => "held"
                              case _ => "pending_execution")
      && (c.None? ==> rows == [])
      && (c.Some? ==> exists status :: rows == RowsOf(c.value.trades, c.value.targets, status))
      && (r.content.reportState == "pending_transactions" <==> rows != [])
      && (r.content.reportState == "no_transaction_recommended" <==> rows == [] && (c.Some? || GovernedNoAction(b)))
      && (r.content.reportState == "awaiting_cio_construction" <==> rows == [] && c.None? && !GovernedNoAction(b))
      && (r.content.abstention <==> b.Some? && GovernedNoAction(b))
  {
    if c.Some? {
      var status := StatusUnder(BuildReport(c, b, at, launchAt, execution).content.executionState);
      RowsFitTrades(c.value.trades, c.value.targets, status);
      assert forall i | 0 <= i < |RowsOf(c.value.trades, c.value.targets, status)| ::
          RowsOf(c.value.trades, c.value.targets, status)[i] in RowsOf(c.value.trades, c.value.targets, status);
    }
  }

  /** Whose report it is: the briefing's decision, else its identifier, else its cycle; the
      construction's identifier and status; the briefing's time and status. */
  lemma ReportIdentifies(c: Option<Construction>, b: Option<Briefing>, at: int, launchAt: int, execution: string)
    ensures
      var r := BuildReport(c, b, at, launchAt, execution).content;
      && (b.None? ==> r.decision == "" && r.asOf == "" && r.briefingStatus == "")
      && (b.Some? ==>
            && r.asOf == b.value.asOf && r.briefingStatus == b.value.status
            && (b.value.decisionId != "" ==> r.decision == b.value.decisionId)
            && (b.value.decisionId == "" && b.value.identifier != "" ==> r.decision == b.value.identifier)
            && (b.value.decisionId == "" && b.value.identifier == "" ==> r.decision == b.value.cycleId))
      && (c.None? ==> r.construction == "" && r.constructionStatus == "unavailable")
      && (c.Some? ==> r.construction == c.value.id && r.constructionStatus == c.value.status)
  {
  }

  /** A briefing that sends the runner down its no-action path is a recorded safe abstention
      in the report it publishes, with no transaction. */
  lemma RunnerNoActionIsRecorded(b: Option<Briefing>, at: int, launchAt: int)
    requires RunnerNoAction(b)
    ensures
      var r := BuildReport(None, b, at, launchAt, "no_action").content;
      r.abstention && r.reportState == "no_transaction_recommended" && r.rows == [] && r.executionState == "no_action"
  {
  }

  // ---------------------------------------------------------------- the report directory

  datatype Files = Files(latest: Option<Report>, history: map<Digest, Report>)

  /** Writing a report: the latest file always, the history entry only if it is not there.
      With `interrupted`, the process stops after the latest file. */
  function Written(f: Files, r: Report, interrupted: bool): Files
  {
    Files(Some(r), if interrupted || r.fingerprint in f.history then f.history else f.history[r.fingerprint := r])
  }

  class ReportDirectory {
    var latest: Option<Report>
    var history: map<Digest, Report>

    constructor (latest: Option<Report>, history: map<Digest, Report>)
      ensures Current() == Files(latest, history)
    {
      this.latest, this.history := latest, history;
    }

    function Current(): Files
      reads this
    {
      Files(latest, history)
    }

    /** `fingerprint` is what the caller's report already carries, if anything. */
    method Write(content: Content, at: int, fingerprint: Option<Digest>)
      modifies this
      ensures
        var digest := if fingerprint.Some? then fingerprint.value else Digest(content);
        Current() == Written(old(Current()), Report(content, at, digest), false)
      ensures
        var digest := if fingerprint.Some? then fingerprint.value else Digest(content);
        && latest == Some(Report(content, at, digest))
        && (digest in old(history) ==> history == old(history))
        && (digest !in old(history) ==> history == old(history)[digest := Report(content, at, digest)])
    {
      var digest := if fingerprint.Some? then fingerprint.value else Digest(content);
      var payload := Report(content, at, digest);
      latest := Some(payload);
      if digest !in history {
        history := history[digest := payload];
      }
    }

    method Publish(c: Option<Construction>, b: Option<Briefing>, at: int, launchAt: int, execution: string) returns (r: Report)
      modifies this
      ensures r == BuildReport(c, b, at, launchAt, execution)
      ensures Current() == Written(old(Current()), r, false)
    {
      r := BuildReport(c, b, at, launchAt, execution);
      Write(r.content, r.generatedAt, Some(r.fingerprint));
    }

    method Resolve(c: Option<Construction>, b: Option<Briefing>, at: int, launchAt: int) returns (r: Report)
      ensures r.content.decision == DecisionId(b) && r.content.construction == ConstructionId(c)
      ensures r == Resolved(latest, c, b, at, launchAt)
      ensures
        if latest.Some? && latest.value.content.decision == DecisionId(b) && latest.value.content.construction == ConstructionId(c)
        then Some(r) == latest
        else r.generatedAt == at && r.content.executionState == (if at < launchAt then "scheduled" else "pending")
    {
      if latest.Some?
         && latest.value.content.decision == DecisionId(b)
         && latest.value.content.construction == ConstructionId(c) {
        return latest.value;
      }
      return BuildReport(c, b, at, launchAt, "");
    }
  }

  function Resolved(latest: Option<Report>, c: Option<Construction>, b: Option<Briefing>, at: int, launchAt: int): Report
  {
    if latest.Some? && latest.value.content.decision == DecisionId(b) && latest.value.content.construction == ConstructionId(c)
    then latest.value
    else BuildReport(c, b, at, launchAt, "")
  }

  // ---------------------------------------------------------------- all sequences of publications

  /** Every entry's content hashes to its name, and is stored under the fingerprint it shows. */
  predicate Addressed(history: map<Digest, Report>)
  {
    forall d | d in history :: d == Digest(history[d].content) && history[d].fingerprint == d
  }

  /** The latest report and its history entry, when there is one, differ at most in time. */
  predicate LatestAgrees(f: Files)
  {
    f.latest.Some? ==>
      && f.latest.value.fingerprint == Digest(f.latest.value.content)
      && (f.latest.value.fingerprint in f.history ==>
            f.history[f.latest.value.fingerprint].content == f.latest.value.content)
  }

  datatype Publication = Publication(
    construction: Option<Construction>, briefing: Option<Briefing>, at: int, launchAt: int, execution: string, interrupted: bool)

  function Publish1(f: Files, p: Publication): Files
  {
    Written(f, BuildReport(p.construction, p.briefing, p.at, p.launchAt, p.execution), p.interrupted)
  }

  function PublishAll(f: Files, ps: seq<Publication>): Files
  {
    if ps == [] then f else Publish1(PublishAll(f, ps[..|ps| - 1]), ps[|ps| - 1])
  }

  predicate Extends(before: map<Digest, Report>, after: map<Digest, Report>)
  {
    forall d | d in before :: d in after && after[d] == before[d]
  }

  lemma ExtendsComposes(a: map<Digest, Report>, b: map<Digest, Report>, c: map<Digest, Report>)
    requires Extends(a, b) && Extends(b, c)
    ensures Extends(a, c)
  {
  }

  lemma PublishKeepsHistory(f: Files, p: Publication)
    requires Addressed(f.history) && LatestAgrees(f)
    ensures
      var g := Publish1(f, p);
      && Addressed(g.history) && LatestAgrees(g) && Extends(f.history, g.history)
      && g.latest.Some? && (!p.interrupted ==> g.latest.value.fingerprint in g.history)
  {
  }

  /** Over any sequence of publications, some of them cut short: the history stays
      content-addressed, no entry is ever replaced or removed, and the latest report agrees
      with its entry up to its time; the entry exists when the last publication was completed. */
  lemma {:induction false} HistoryIsAppendOnly(f: Files, ps: seq<Publication>)
    requires Addressed(f.history) && LatestAgrees(f)
    ensures
      var g := PublishAll(f, ps);
      && Addressed(g.history) && LatestAgrees(g) && Extends(f.history, g.history)
      && (ps != [] && !ps[|ps| - 1].interrupted ==> g.latest.Some? && g.latest.value.fingerprint in g.history)
  {
    if ps != [] {
      var n := |ps| - 1;
      HistoryIsAppendOnly(f, ps[..n]);
      PublishKeepsHistory(PublishAll(f, ps[..n]), ps[n]);
      ExtendsComposes(f.history, PublishAll(f, ps[..n]).history, PublishAll(f, ps).history);
    }
  }

  /** Writing a report that brings its own fingerprint keeps the history content-addressed
      exactly when the fingerprint is the content's, or its entry exists already. */
  lemma ForeignFingerprintIff(f: Files, content: Content, at: int, fingerprint: Digest)
    requires Addressed(f.history)
    ensures Addressed(Written(f, Report(content, at, fingerprint), false).history)
       <==> fingerprint == Digest(content) || fingerprint in f.history
  {
    var r := Report(content, at, fingerprint);
    var g := Written(f, r, false);
    if fingerprint !in f.history {
      assert g.history[fingerprint] == r;
    } else {
      assert g.history == f.history;
    }
  }

  /** Resolving after a publication returns exactly what was published for the same decision
      and construction, whatever else is asked of it. */
  lemma ResolveReturnsPublished(f: Files, p: Publication, c: Option<Construction>, b: Option<Briefing>, at: int, launchAt: int)
    requires DecisionId(b) == DecisionId(p.briefing) && ConstructionId(c) == ConstructionId(p.construction)
    ensures Some(Resolved(Publish1(f, p).latest, c, b, at, launchAt)) == Publish1(f, p).latest
  {
  }
}
