/** When the gate's two answers agree: what a scan says about a pass, and whether the entry is then accepted. */
module GateExpiry {
  import opened Domain
  import opened ExtensionRules
  import opened GateLedger
  import opened GateMachine
  import opened GateOneTime

  // ---- Statuses a run can reach ----

  predicate Settled(row: Invitation) {
    (row.status == ACTIVE || row.status == EXPIRED || row.status == REVOKED || (row.status == USED && row.policy == ONE_TIME))
    && row.validFrom < row.validUntil
  }

  ghost predicate AllSettled(rows: map<InvitationId, Invitation>) {
    forall id :: id in rows ==> Settled(rows[id])
  }

  lemma CommittedExtensionSettles(db: Ledger, p: PendingExtension)
    requires AllSettled(db.invitations) && Remembers(ExtensionRequest(p), db.invitations)
    ensures AllSettled(CommitExtension(db, p).0.invitations)
  {
  }

  lemma CommittedEntrySettles(db: Ledger, id: InvitationId, policy: EntryPolicy)
    requires AllSettled(db.invitations) && id in db.invitations && db.invitations[id].policy == policy
    ensures AllSettled(CommitEntry(db, id, policy).0.invitations)
  {
    hide HasOpenVisit;
  }

  lemma LookupsSettle(db: Ledger, estate: EstateId, found: Option<InvitationId>)
    requires AllSettled(db.invitations)
    ensures AllSettled(Verify(db, estate, found).0.invitations) && AllSettled(OpenLink(db, found).0.invitations)
  {
  }

  lemma StepSettles(g: Gate, a: Action, zone: Time -> int)
    requires Inv(g) && AllSettled(g.db.invitations)
    ensures AllSettled(Step(g, a, zone).db.invitations)
  {
    hide DecideExtension, CommitExtension, CommitEntry, Verify, OpenLink, TokenTaken, Admitted;
    match a
    case FinishExtension(request) =>
      if request in g.requests && g.requests[request].ExtensionRequest? {
        CommittedExtensionSettles(g.db, g.requests[request].pending);
      }
    case ExtendNow(resident, estate, id, minutes, rules) =>
      DecidedIsRemembered(g.db, resident, estate, id, minutes, rules, zone);
      var decided := DecideExtension(g.db, resident, estate, id, minutes, rules, zone);
      if decided.Ok? {
        CommittedExtensionSettles(g.db, decided.value);
      }
    case FinishEntry(request) =>
      if request in g.requests && g.requests[request].EntryRequest? {
        CommittedEntrySettles(g.db, g.requests[request].id, g.requests[request].policy);
      }
    case Enter(estate, id) =>
      if CheckEntry(g.db, estate, id).Ok? {
        CommittedEntrySettles(g.db, id, CheckEntry(g.db, estate, id).value);
      }
    case Scan(estate, found) => LookupsSettle(g.db, estate, found);
    case ViewLink(found) => LookupsSettle(g.db, 0, found);
    case _ =>
  }

  lemma {:induction false} RunSettles(actions: seq<Action>, zone: Time -> int)
    ensures AllSettled(Run(actions, zone).db.invitations)
  {
    if actions != [] {
      RunKeepsInv(actions[..|actions| - 1], zone);
      RunSettles(actions[..|actions| - 1], zone);
      StepSettles(Run(actions[..|actions| - 1], zone), actions[|actions| - 1], zone);
    }
  }

  // ---- Entry against verification ----

  predicate MayPass(o: Outcome) {
    o == VALID || o == NOT_YET_VALID
  }

  /**
   * In any interleaving: an entry is accepted exactly when a scan would pass it, nobody is inside on it, and it is
   * not a ONE_TIME row left EXPIRED.
   */
  lemma EntryAgainstScan(actions: seq<Action>, zone: Time -> int, estate: EstateId, id: InvitationId)
    ensures var db := Run(actions, zone).db;
      RecordEntry(db, estate, id).1.Ok? <==>
        && MayPass(Verdict(Lookup(db, Some(id)), estate, db.clock))
        && !HasOpenVisit(db.visits, id)
        && !(db.invitations[id].policy == ONE_TIME && db.invitations[id].status == EXPIRED)
  {
    RunSettles(actions, zone);
  }

  /** A ONE_TIME pass that a scan would pass has nobody inside on it. */
  lemma OneTimeNeedsNoOpenVisitCheck(actions: seq<Action>, zone: Time -> int, estate: EstateId, id: InvitationId)
    requires id in Run(actions, zone).db.invitations && Run(actions, zone).db.invitations[id].policy == ONE_TIME
    requires var db := Run(actions, zone).db; MayPass(Verdict(Lookup(db, Some(id)), estate, db.clock))
    ensures !HasOpenVisit(Run(actions, zone).db.visits, id)
  {
    RunKeepsInv(actions, zone);
    var db := Run(actions, zone).db;
    if HasOpenVisit(db.visits, id) {
      assert Admitted(db, id);
    }
  }

  // ---- Runs in which reading and writing an extension is one step ----

  predicate ExtensionsAtomic(actions: seq<Action>) {
    forall i :: 0 <= i < |actions| ==> !actions[i].StartExtension?
  }

  /** EXPIRED means the time has really run out. */
  ghost predicate ExpiredIsPast(g: Gate) {
    && (forall id :: id in g.db.invitations && g.db.invitations[id].status == EXPIRED ==> g.db.invitations[id].validUntil < g.db.clock)
    && (forall r :: r in g.requests ==> g.requests[r].EntryRequest?)
  }

  lemma StepKeepsExpiredPast(g: Gate, a: Action, zone: Time -> int)
    requires ExpiredIsPast(g) && !a.StartExtension?
    ensures ExpiredIsPast(Step(g, a, zone))
  {
    hide HasOpenVisit, TokenTaken;
  }

  lemma {:induction false} AtomicRunKeepsExpiredPast(actions: seq<Action>, zone: Time -> int)
    requires ExtensionsAtomic(actions)
    ensures ExpiredIsPast(Run(actions, zone))
  {
    if actions != [] {
      AtomicRunKeepsExpiredPast(actions[..|actions| - 1], zone);
      StepKeepsExpiredPast(Run(actions[..|actions| - 1], zone), actions[|actions| - 1], zone);
    }
  }

  /**
   * With atomic extensions the two answers agree: accepted exactly when a scan passes it and nobody is inside on
   * it.
   */
  lemma EntryAgreesWithScan(actions: seq<Action>, zone: Time -> int, estate: EstateId, id: InvitationId)
    requires ExtensionsAtomic(actions)
    ensures var db := Run(actions, zone).db;
      RecordEntry(db, estate, id).1.Ok? <==>
        MayPass(Verdict(Lookup(db, Some(id)), estate, db.clock)) && !HasOpenVisit(db.visits, id)
    ensures var db := Run(actions, zone).db;
      id in db.invitations && db.invitations[id].policy == ONE_TIME ==>
        (RecordEntry(db, estate, id).1.Ok? <==> MayPass(Verdict(Lookup(db, Some(id)), estate, db.clock)))
  {
    AtomicRunKeepsExpiredPast(actions, zone);
    EntryAgainstScan(actions, zone, estate, id);
    var db := Run(actions, zone).db;
    if id in db.invitations && db.invitations[id].policy == ONE_TIME && MayPass(Verdict(Lookup(db, Some(id)), estate, db.clock)) {
      OneTimeNeedsNoOpenVisitCheck(actions, zone, estate, id);
    }
  }

  // ---- Why the extension has to be atomic for that ----

  const TEN_MINUTE_PASS := Draft(0, 0, "token", "code", 0, 10 * MINUTE_MS, None, None)
  const PLAIN_RULES := Rules(true, 120, 720, None, None)

  /** The pass runs out and, before anyone notices, the resident's extension reads it as still ACTIVE. */
  lemma ExtensionReadsActive(zone: Time -> int)
    ensures var g := Run([Create(0, TEN_MINUTE_PASS), Tick(11 * MINUTE_MS), StartExtension(0, 0, 0, 0, 30, PLAIN_RULES)], zone);
      var row := Invitation(0, 0, "token", "code", 0, 10 * MINUTE_MS, ACTIVE, ONE_TIME);
      g == Gate(Ledger(11 * MINUTE_MS, map[0 := row], [], [], [InvitationEvent(0, CREATED)]),
                map[0 := ExtensionRequest(PendingExtension(0, row, 41 * MINUTE_MS, 30))])
  {
    var created, ticked, started := Create(0, TEN_MINUTE_PASS), Tick(11 * MINUTE_MS), StartExtension(0, 0, 0, 0, 30, PLAIN_RULES);
    RunAppends([], created, zone);
    RunAppends([created], ticked, zone);
    RunAppends([created, ticked], started, zone);
    assert [] + [created] == [created] && [created] + [ticked] == [created, ticked];
    assert [created, ticked] + [started] == [created, ticked, started];
  }

  /** The sweep marks the row EXPIRED between an extension's read and its write. */
  const SWEPT_WHILE_EXTENDING := [
    Create(0, TEN_MINUTE_PASS), Tick(11 * MINUTE_MS), StartExtension(0, 0, 0, 0, 30, PLAIN_RULES),
    SweepOne(0, 11 * MINUTE_MS), FinishExtension(0)]

  /** Then the row is EXPIRED with its time still running: a scan says VALID and the entry is refused. */
  lemma SplitExtensionCanDisagree(zone: Time -> int)
    ensures var db := Run(SWEPT_WHILE_EXTENDING, zone).db;
      && 0 in db.invitations && db.invitations[0].status == EXPIRED && db.clock < db.invitations[0].validUntil
      && db.invitations[0].policy == ONE_TIME && db.invitations[0].estate == 0
      && Verdict(Lookup(db, Some(0)), 0, db.clock) == VALID
      && RecordEntry(db, 0, 0).1 == Err(Conflict)
  {
    ExtensionReadsActive(zone);
    var s := SWEPT_WHILE_EXTENDING;
    RunAppends(s[..3], s[3], zone);
    RunAppends(s[..4], s[4], zone);
    assert s[..3] == [s[0], s[1], s[2]] && s[..3] + [s[3]] == s[..4] && s[..4] + [s[4]] == s;
    hide Run;
    SweptExtensionFinishes(Run(s[..3], zone), zone);
  }

  /** Sweeping between the two halves leaves the row EXPIRED, with its new end. */
  lemma SweptExtensionFinishes(g: Gate, zone: Time -> int)
    requires 0 in g.requests && g.requests[0].ExtensionRequest? && 0 in g.db.invitations && g.db.visits == []
    requires var p := g.requests[0].pending;
      p.id == 0 && p.seen == g.db.invitations[0] && g.db.clock < p.newValidUntil
    requires var row := g.db.invitations[0];
      Overdue(row, g.db.clock) && row.estate == 0 && row.policy == ONE_TIME && row.validFrom <= g.db.clock
    ensures var db := Step(Step(g, SweepOne(0, g.db.clock), zone), FinishExtension(0), zone).db;
      && 0 in db.invitations && db.invitations[0].status == EXPIRED && db.clock < db.invitations[0].validUntil
      && db.invitations[0].policy == ONE_TIME && db.invitations[0].estate == 0
      && Verdict(Lookup(db, Some(0)), 0, db.clock) == VALID
      && RecordEntry(db, 0, 0).1 == Err(Conflict)
  {
  }
}
