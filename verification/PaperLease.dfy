/**
  The durable lease of operations/paper_execution_leases.py and the thread that maintains it
  (`_MaintainedExecutionLease` in paper_execution_runtime.py).

  One row per construction hash; every operation is one immediate transaction.  Times are
  integers.  The program compares `expires_at` as ISO text in UTC, which orders as the times do.
*/
module PaperLease {
  import opened Options

  type Digest = string
  type Owner = string

  datatype Row = Row(owner: Owner, token: int, expires: int)
  datatype Grant = Grant(sha: Digest, owner: Owner, token: int, expires: int)
  type Rows = map<Digest, Row>

  const SECOND := 1_000_000
  const MIN_LEASE_SECONDS := 15

  predicate Held(rows: Rows, sha: Digest, owner: Owner, now: int)
  {
    sha in rows && now < rows[sha].expires && rows[sha].owner != owner
  }

  /** The row a successful acquisition writes: a takeover raises the token by one. */
  function AcquiredRow(rows: Rows, sha: Digest, owner: Owner, seconds: int, now: int): Row
  {
    Row(owner, if sha in rows then rows[sha].token + 1 else 1, now + seconds * SECOND)
  }

  predicate Matches(rows: Rows, g: Grant)
  {
    g.sha in rows && rows[g.sha].owner == g.owner && rows[g.sha].token == g.token
  }

  predicate Renewable(rows: Rows, g: Grant, now: int)
  {
    Matches(rows, g) && now <= rows[g.sha].expires
  }

  function Renewed(rows: Rows, g: Grant, seconds: int, now: int): Rows
  {
    if Renewable(rows, g, now) then rows[g.sha := rows[g.sha].(expires := now + seconds * SECOND)] else rows
  }

  function Released(rows: Rows, g: Grant): Rows
  {
    if Matches(rows, g) then rows - {g.sha} else rows
  }

  datatype AcquireResult = Granted(grant: Grant) | Busy | Rejected

  class LeaseStore {
    var rows: Rows

    constructor (existing: Rows)
      ensures rows == existing
    {
      rows := existing;
    }

    method Acquire(sha: Digest, owner: Owner, seconds: int, now: int) returns (r: AcquireResult)
      modifies this
      ensures r.Rejected? <==> seconds < 15
      ensures !r.Rejected? ==> (r.Busy? <==> Held(old(rows), sha, owner, now))
      // Refused exactly while another owner's row is unexpired; a takeover raises the token.
      ensures
        15 <= seconds ==>
          (r.Busy? <==> sha in old(rows) && now < old(rows)[sha].expires && old(rows)[sha].owner != owner)
      ensures
        r.Granted? ==>
          && r.grant.sha == sha && r.grant.owner == owner && r.grant.expires == now + seconds * 1_000_000
          && r.grant.token == (if sha in old(rows) then old(rows)[sha].token + 1 else 1)
          && rows == old(rows)[sha := Row(r.grant.owner, r.grant.token, r.grant.expires)]
      ensures r.Granted? ==>
        var row := AcquiredRow(old(rows), sha, owner, seconds, now);
        rows == old(rows)[sha := row] && r.grant == Grant(sha, owner, row.token, row.expires)
      ensures !r.Granted? ==> rows == old(rows)
    {
      if seconds < MIN_LEASE_SECONDS {
        return Rejected;
      }
      var token := 1;
      if sha in rows {
        if now < rows[sha].expires && rows[sha].owner != owner {
          return Busy;
        }
        token := rows[sha].token + 1;
      }
      var expires := now + seconds * SECOND;
      rows := rows[sha := Row(owner, token, expires)];
      return Granted(Grant(sha, owner, token, expires));
    }

    method Renew(g: Grant, seconds: int, now: int) returns (renewed: Option<Grant>)
      modifies this
      ensures renewed.Some? <==> Renewable(old(rows), g, now)
      ensures renewed.Some? ==> renewed.value == g.(expires := now + seconds * SECOND)
      ensures rows == Renewed(old(rows), g, seconds, now)
      // Exactly the row of this very grant, unexpired, is renewed, and only its expiry moves.
      ensures
        renewed.Some? <==>
          && g.sha in old(rows) && old(rows)[g.sha].owner == g.owner && old(rows)[g.sha].token == g.token
          && now <= old(rows)[g.sha].expires
      ensures renewed.None? ==> rows == old(rows)
      ensures renewed.Some? ==> rows == old(rows)[g.sha := Row(g.owner, g.token, now + seconds * 1_000_000)]
    {
      if g.sha !in rows {
        return None;
      }
      var row := rows[g.sha];
      if row.owner != g.owner || row.token != g.token || row.expires < now {
        return None;
      }
      var expires := now + seconds * SECOND;
      rows := rows[g.sha := row.(expires := expires)];
      return Some(g.(expires := expires));
    }

    method Release(g: Grant)
      modifies this
      ensures rows == Released(old(rows), g)
      ensures
        var mine := g.sha in old(rows) && old(rows)[g.sha].owner == g.owner && old(rows)[g.sha].token == g.token;
        rows == if mine then old(rows) - {g.sha} else old(rows)
    {
      if g.sha in rows && rows[g.sha].owner == g.owner && rows[g.sha].token == g.token {
        rows := rows - {g.sha};
      }
    }
  }

  // ---------------------------------------------------------------- the maintained lease

  /** When a heartbeat or the final assertion reaches the store; `None` is a store failure. */
  type Beat = Option<int>

  /** The holder's view after its heartbeats: the rows, and whether the thread gave up. */
  datatype Maintained = Maintained(rows: Rows, lost: bool)

  function AfterBeat(m: Maintained, g: Grant, seconds: int, beat: Beat): Maintained
  {
    if m.lost then m
    else if beat.Some? && Renewable(m.rows, g, beat.value)
    then m.(rows := Renewed(m.rows, g, seconds, beat.value))
    else m.(lost := true)
  }

  function AfterBeats(m: Maintained, g: Grant, seconds: int, beats: seq<Beat>): Maintained
  {
    if beats == [] then m
    else AfterBeat(AfterBeats(m, g, seconds, beats[..|beats| - 1]), g, seconds, beats[|beats| - 1])
  }

  predicate StillOwned(m: Maintained, g: Grant, beat: Beat)
  {
    !m.lost && beat.Some? && Renewable(m.rows, g, beat.value)
  }

  predicate SameHolder(a: Grant, b: Grant)
  {
    a.sha == b.sha && a.owner == b.owner && a.token == b.token
  }

  /** The instant before the i-th beat: of the beat before it, or of the acquisition. */
  function Previous(acquired: int, beats: seq<Beat>, i: nat): int
    requires i <= |beats|
  {
    if i == 0 || beats[i - 1].None? then acquired else beats[i - 1].value
  }

  /** Every beat reaches the store, within the lease duration after the one before. */
  predicate OnTime(acquired: int, beats: seq<Beat>, seconds: int, i: nat)
    requires i < |beats|
  {
    beats[i].Some? && beats[i].value <= Previous(acquired, beats, i) + seconds * SECOND
  }

  predicate Timely(acquired: int, beats: seq<Beat>, seconds: int)
  {
    forall i | 0 <= i < |beats| :: OnTime(acquired, beats, seconds, i)
  }

  lemma TimelyExtended(acquired: int, beats: seq<Beat>, beat: Beat, seconds: int)
    ensures Timely(acquired, beats + [beat], seconds) <==>
      Timely(acquired, beats, seconds)
      && beat.Some? && beat.value <= Previous(acquired, beats, |beats|) + seconds * SECOND
  {
    assert forall i | 0 <= i < |beats| :: OnTime(acquired, beats + [beat], seconds, i) <==> OnTime(acquired, beats, seconds, i);
    assert OnTime(acquired, beats + [beat], seconds, |beats|) <==>
      beat.Some? && beat.value <= Previous(acquired, beats, |beats|) + seconds * SECOND;
  }

  /** Left alone, a lease survives its heartbeats exactly when they are timely; the row stays
      the holder's, and expires one duration after the last beat. */
  lemma {:induction false} LeaseKeptIffTimely(rows: Rows, g: Grant, seconds: int, acquired: int, beats: seq<Beat>)
    requires g.sha in rows && rows[g.sha] == Row(g.owner, g.token, acquired + seconds * SECOND)
    ensures
      var m := AfterBeats(Maintained(rows, false), g, seconds, beats);
      && (!m.lost <==> Timely(acquired, beats, seconds))
      && Matches(m.rows, g)
      && (!m.lost ==> m.rows[g.sha].expires == Previous(acquired, beats, |beats|) + seconds * SECOND)
  {
    if beats != [] {
      var n := |beats| - 1;
      LeaseKeptIffTimely(rows, g, seconds, acquired, beats[..n]);
      TimelyExtended(acquired, beats[..n], beats[n], seconds);
      assert beats == beats[..n] + [beats[n]];
    }
  }

  class MaintainedLease {
    const store: LeaseStore
    const seconds: int
    var grant: Grant
    var lost: bool

    constructor (store: LeaseStore, grant: Grant, seconds: int)
      ensures this.store == store && this.grant == grant && this.seconds == seconds && !lost
    {
      this.store, this.grant, this.seconds, this.lost := store, grant, seconds, false;
    }

    /** One turn of the renewal thread; it stops for good at the first failure. */
    method Maintain(beat: Beat)
      modifies this, store
      ensures SameHolder(grant, old(grant))
      ensures Maintained(store.rows, lost)
           == AfterBeat(Maintained(old(store.rows), old(lost)), old(grant), seconds, beat)
      // Given up for good at the first failure; until then the row expires one
      // duration after the beat.
      ensures
        var g := old(grant);
        !lost <==>
          && !old(lost) && beat.Some? && g.sha in old(store.rows)
          && old(store.rows)[g.sha].owner == g.owner && old(store.rows)[g.sha].token == g.token
          && beat.value <= old(store.rows)[g.sha].expires
      ensures lost ==> store.rows == old(store.rows)
      ensures
        var g := old(grant);
        !lost ==> store.rows == old(store.rows)[g.sha := Row(g.owner, g.token, beat.value + seconds * 1_000_000)]
    {
      if lost {
        return;
      }
      if beat.None? {
        lost := true;
        return;
      }
      var renewed := store.Renew(grant, seconds, beat.value);
      if renewed.Some? {
        grant := renewed.value;
      } else {
        lost := true;
      }
    }

    method AssertOwned(beat: Beat) returns (ok: bool)
      modifies this, store
      ensures SameHolder(grant, old(grant)) && lost == old(lost)
      ensures ok <==> StillOwned(Maintained(old(store.rows), old(lost)), old(grant), beat)
      ensures store.rows == if ok then Renewed(old(store.rows), old(grant), seconds, beat.value)
                            else old(store.rows)
    {
      if lost || beat.None? {
        return false;
      }
      var renewed := store.Renew(grant, seconds, beat.value);
      if renewed.Some? {
        grant := renewed.value;
      }
      return renewed.Some?;
    }

    method Close()
      modifies store
      ensures store.rows == Released(old(store.rows), grant)
    {
      store.Release(grant);
    }
  }

  // ---------------------------------------------------------------- all histories of the store

  /** The rows with every grant ever issued, in order. */
  datatype Ledger = Ledger(rows: Rows, issued: seq<Grant>)

  datatype Op =
    | Acquire(sha: Digest, owner: Owner, seconds: int, now: int)
    | Renew(grant: Grant, seconds: int, now: int)
    | Release(grant: Grant)

  function Apply(l: Ledger, op: Op): Ledger
  {
    match op
    case Acquire(sha, owner, seconds, now) =>
      if seconds < MIN_LEASE_SECONDS || Held(l.rows, sha, owner, now) then l
      else
        var row := AcquiredRow(l.rows, sha, owner, seconds, now);
        Ledger(l.rows[sha := row], l.issued + [Grant(sha, owner, row.token, row.expires)])
    case Renew(g, seconds, now) => l.(rows := Renewed(l.rows, g, seconds, now))
    case Release(g) => l.(rows := Released(l.rows, g))
  }

  function ApplyAll(l: Ledger, ops: seq<Op>): Ledger
    decreases |ops|
  {
    if ops == [] then l else ApplyAll(Apply(l, ops[0]), ops[1..])
  }

  /** Only its owner's acquisition can make a row match a grant it did not match before. */
  lemma MatchNeedsAcquisition(l: Ledger, op: Op, g: Grant)
    requires Matches(Apply(l, op).rows, g)
    ensures Matches(l.rows, g) || (op.Acquire? && op.owner == g.owner)
    ensures l.issued <= Apply(l, op).issued
  {
  }

  /** Every acquisition names an owner never seen before: process id plus `uuid4`. */
  predicate FreshOwner(l: Ledger, op: Op)
  {
    op.Acquire? ==> forall g | g in l.issued :: g.owner != op.owner
  }

  predicate FreshOwners(l: Ledger, ops: seq<Op>)
    decreases |ops|
  {
    ops == [] || (FreshOwner(l, ops[0]) && FreshOwners(Apply(l, ops[0]), ops[1..]))
  }

  function LastIssued(issued: seq<Grant>, sha: Digest): (r: Option<Grant>)
    ensures r.Some? ==> r.value in issued && r.value.sha == sha
    ensures r.None? ==> forall g | g in issued :: g.sha != sha
  {
    if issued == [] then None
    else if issued[|issued| - 1].sha == sha then Some(issued[|issued| - 1])
    else LastIssued(issued[..|issued| - 1], sha)
  }

  /** Only the newest grant of a hash can be the one its row names. */
  ghost predicate RowIsNewest(l: Ledger)
  {
    forall sha | sha in l.rows && LastIssued(l.issued, sha).Some? ::
      var g := LastIssued(l.issued, sha).value;
      RowMatches(l.rows[sha], g)
  }

  predicate RowMatches(row: Row, g: Grant) { row.owner == g.owner && row.token == g.token }

  lemma ApplyKeepsRowNewest(l: Ledger, op: Op)
    requires RowIsNewest(l)
    ensures RowIsNewest(Apply(l, op))
  {
  }

  lemma {:induction false} ApplyAllKeepsRowNewest(l: Ledger, ops: seq<Op>)
    requires RowIsNewest(l)
    ensures RowIsNewest(ApplyAll(l, ops))
    decreases |ops|
  {
    if ops != [] {
      ApplyKeepsRowNewest(l, ops[0]);
      ApplyAllKeepsRowNewest(Apply(l, ops[0]), ops[1..]);
    }
  }

  lemma {:induction false} SupersededStaysSuperseded(l: Ledger, ops: seq<Op>, g: Grant)
    requires g in l.issued && FreshOwners(l, ops)
    requires LastIssued(l.issued, g.sha).Some? && LastIssued(l.issued, g.sha).value.owner != g.owner
    ensures var m := ApplyAll(l, ops);
            LastIssued(m.issued, g.sha).Some? && LastIssued(m.issued, g.sha).value.owner != g.owner
    decreases |ops|
  {
    if ops != [] {
      var m := Apply(l, ops[0]);
      if m.issued != l.issued {
        assert m.issued[..|l.issued|] == l.issued;
        assert g in m.issued;
      }
      SupersededStaysSuperseded(m, ops[1..], g);
    }
  }

  /** Fencing: once a later grant of the hash exists, the earlier one can never be renewed
      again, whatever clocks read, whatever renewals, releases and acquisitions follow. */
  lemma SupersededGrantNeverRenews(l: Ledger, ops: seq<Op>, g: Grant, now: int)
    requires RowIsNewest(l) && g in l.issued && FreshOwners(l, ops)
    requires LastIssued(l.issued, g.sha).Some? && LastIssued(l.issued, g.sha).value.owner != g.owner
    ensures !Renewable(ApplyAll(l, ops).rows, g, now)
  {
    ApplyAllKeepsRowNewest(l, ops);
    SupersededStaysSuperseded(l, ops, g);
  }

  // ---------------------------------------------------------------- what tokens alone promise

  /** The tokens issued for one hash rise in the order of issue. */
  predicate Rising(issued: seq<Grant>)
  {
    forall i, j | 0 <= i < j < |issued| && issued[i].sha == issued[j].sha :: issued[i].token < issued[j].token
  }

  predicate PositiveTokens(l: Ledger)
  {
    && (forall sha | sha in l.rows :: 1 <= l.rows[sha].token)
    && (forall g | g in l.issued :: 1 <= g.token)
  }

  predicate Grants(l: Ledger, op: Op)
  {
    op.Acquire? && MIN_LEASE_SECONDS <= op.seconds && !Held(l.rows, op.sha, op.owner, op.now)
  }

  /** A release that takes effect on the row of a hash granted in this history. */
  predicate Vacates(l: Ledger, op: Op)
  {
    op.Release? && Matches(l.rows, op.grant) && exists g | g in l.issued :: g.sha == op.grant.sha
  }

  function Vacated(l: Ledger, op: Op, vacated: set<Digest>): set<Digest>
  {
    if Vacates(l, op) then vacated + {op.grant.sha} else vacated
  }

  /** No acquisition of a hash is granted after its row was effectively released. */
  predicate NeverReacquired(l: Ledger, ops: seq<Op>, vacated: set<Digest>)
    decreases |ops|
  {
    ops == [] ||
    (&& !(Grants(l, ops[0]) && ops[0].sha in vacated)
     && NeverReacquired(Apply(l, ops[0]), ops[1..], Vacated(l, ops[0], vacated)))
  }

  /** Hashes granted before still have their row, carrying the newest token, unless vacated. */
  ghost predicate Tracks(l: Ledger, vacated: set<Digest>)
  {
    && PositiveTokens(l) && Rising(l.issued)
    && (forall g | g in l.issued && g.sha !in vacated :: g.sha in l.rows && g.token <= l.rows[g.sha].token)
    && (forall sha | sha in vacated :: sha !in l.rows && exists g :: g in l.issued && g.sha == sha)
  }

  lemma RisingAfter(issued: seq<Grant>, g: Grant)
    requires Rising(issued) && forall x | x in issued && x.sha == g.sha :: x.token < g.token
    ensures Rising(issued + [g])
  {
    forall i, j | 0 <= i < j < |issued + [g]| && (issued + [g])[i].sha == (issued + [g])[j].sha
      ensures (issued + [g])[i].token < (issued + [g])[j].token
    {
      assert issued[i] in issued;
    }
  }

  lemma GrantKeepsTracking(l: Ledger, op: Op, vacated: set<Digest>)
    requires Tracks(l, vacated) && Grants(l, op) && op.sha !in vacated
    ensures Tracks(Apply(l, op), vacated)
  {
    var row := AcquiredRow(l.rows, op.sha, op.owner, op.seconds, op.now);
    var g := Grant(op.sha, op.owner, row.token, row.expires);
    var m := Ledger(l.rows[op.sha := row], l.issued + [g]);
    assert Apply(l, op) == m;
    RisingAfter(l.issued, g);
    assert forall x :: x in m.issued <==> x in l.issued || x == g;
  }

  lemma ReleaseKeepsTracking(l: Ledger, op: Op, vacated: set<Digest>)
    requires Tracks(l, vacated) && op.Release?
    ensures Tracks(Apply(l, op), Vacated(l, op, vacated))
  {
  }

  lemma ApplyKeepsTracking(l: Ledger, op: Op, vacated: set<Digest>)
    requires Tracks(l, vacated) && !(Grants(l, op) && op.sha in vacated)
    ensures Tracks(Apply(l, op), Vacated(l, op, vacated))
  {
    if Grants(l, op) {
      GrantKeepsTracking(l, op, vacated);
    } else if op.Release? {
      ReleaseKeepsTracking(l, op, vacated);
    }
  }

  lemma ReacquiringRepeats(l: Ledger, op: Op, vacated: set<Digest>)
    requires Tracks(l, vacated) && Grants(l, op) && op.sha in vacated
    ensures !Rising(Apply(l, op).issued)
  {
    var m := Apply(l, op);
    var g :| g in l.issued && g.sha == op.sha;
    var i :| 0 <= i < |l.issued| && l.issued[i] == g;
    assert m.issued[i] == g && m.issued[|l.issued|].token == 1;
  }

  lemma {:induction false} IssuedGrows(l: Ledger, ops: seq<Op>)
    ensures l.issued <= ApplyAll(l, ops).issued
    decreases |ops|
  {
    if ops != [] {
      IssuedGrows(Apply(l, ops[0]), ops[1..]);
    }
  }

  lemma {:induction false} TrackedTokensRiseIff(l: Ledger, ops: seq<Op>, vacated: set<Digest>)
    requires Tracks(l, vacated)
    ensures Rising(ApplyAll(l, ops).issued) <==> NeverReacquired(l, ops, vacated)
    decreases |ops|
  {
    if ops != [] {
      var m := Apply(l, ops[0]);
      if Grants(l, ops[0]) && ops[0].sha in vacated {
        ReacquiringRepeats(l, ops[0], vacated);
        IssuedGrows(m, ops[1..]);
        if Rising(ApplyAll(m, ops[1..]).issued) {
          RisingPrefix(m.issued, ApplyAll(m, ops[1..]).issued);
        }
      } else {
        ApplyKeepsTracking(l, ops[0], vacated);
        TrackedTokensRiseIff(m, ops[1..], Vacated(l, ops[0], vacated));
      }
    }
  }

  lemma RisingPrefix(some: seq<Grant>, all: seq<Grant>)
    requires some <= all && Rising(all)
    ensures Rising(some)
  {
    assert forall i | 0 <= i < |some| :: some[i] == all[i];
  }

  /** Over any operations on any table whose tokens are positive, the tokens issued for one
      hash rise exactly as long as no hash is granted again after its own row was effectively
      released; releases by superseded holders, and everything else, do no harm. */
  lemma TokensRiseIffNeverReacquired(rows: Rows, ops: seq<Op>)
    requires forall sha | sha in rows :: 1 <= rows[sha].token
    ensures Rising(ApplyAll(Ledger(rows, []), ops).issued) <==> NeverReacquired(Ledger(rows, []), ops, {})
  {
    TrackedTokensRiseIff(Ledger(rows, []), ops, {});
  }

  /** Releasing deletes the row, so the token restarts: two grants share token 1, and it is
      the fresh owner, not the token, that fences the first one off.  With a reused owner
      the released grant would be renewable again. */
  lemma ReleaseRestartsTokens(owner: Owner)
    ensures
      var first := Grant("h", "a", 1, 15 * SECOND);
      var ops := [Acquire("h", "a", 15, 0), Release(first), Acquire("h", owner, 15, 0)];
      var l := ApplyAll(Ledger(map[], []), ops);
      && |l.issued| == 2 && l.issued[0] == first && l.issued[1].token == first.token
      && (Renewable(l.rows, first, 0) <==> owner == "a")
  {
    var first := Grant("h", "a", 1, 15 * SECOND);
    var ops := [Acquire("h", "a", 15, 0), Release(first), Acquire("h", owner, 15, 0)];
    var l0 := Ledger(map[], []);
    var l1 := Apply(l0, ops[0]);
    var l2 := Apply(l1, ops[1]);
    var l3 := Apply(l2, ops[2]);
    assert l1.issued == [first];
    assert "h" !in l2.rows;
    assert ops[1..][1..] == [ops[2]] && ops[1..][1..][1..] == [];
    assert ApplyAll(l2, ops[1..][1..]) == l3;
    assert ApplyAll(l0, ops) == l3;
  }
}
