/** The invitation and visit tables, and every operation on them as one transaction. */
module GateLedger {
  import opened Domain
  import opened ExtensionRules

  datatype Ledger = Ledger(
    clock: Time,
    invitations: map<InvitationId, Invitation>,
    visits: seq<Visit>,
    gateEvents: seq<GateEvent>,
    history: seq<InvitationEvent>)

  const EMPTY_LEDGER := Ledger(0, map[], [], [], [])

  /** What a resident fills in; the rest of a new row is decided by the service. */
  datatype Draft = Draft(
    estate: EstateId,
    resident: ResidentId,
    tokenHash: string,
    codeHash: string,
    validFrom: Time,
    validUntil: Time,
    visitor: Option<VisitorType>,
    policy: Option<EntryPolicy>)

  datatype Outcome = VALID | PAST | NOT_YET_VALID | WITHDRAWN_PASS | ALREADY_USED | UNKNOWN

  /** An extension that has read the row and decided, but not yet written. */
  datatype PendingExtension = PendingExtension(id: InvitationId, seen: Invitation, newValidUntil: Time, minutes: int)

  predicate IsOpen(v: Visit) {
    v.enteredAt.Some? && v.exitedAt.None?
  }

  predicate HasOpenVisit(visits: seq<Visit>, id: InvitationId) {
    exists i :: 0 <= i < |visits| && visits[i].invitation == id && IsOpen(visits[i])
  }

  predicate TokenTaken(invitations: map<InvitationId, Invitation>, tokenHash: string) {
    exists id :: id in invitations && invitations[id].tokenHash == tokenHash
  }

  // ---- Creating and withdrawing ----

  function CreateInvitation(db: Ledger, id: InvitationId, draft: Draft): (Ledger, Result<InvitationId>) {
    if id in db.invitations || TokenTaken(db.invitations, draft.tokenHash) then (db, Err(Conflict))
    else if draft.validUntil <= draft.validFrom then (db, Err(BadRequest))
    else
      var policy := if draft.visitor == Some(COURIER) || draft.policy.None? then ONE_TIME else draft.policy.value;
      var row := Invitation(draft.estate, draft.resident, draft.tokenHash, draft.codeHash,
                            draft.validFrom, draft.validUntil, ACTIVE, policy);
      (db.(invitations := db.invitations[id := row], history := db.history + [InvitationEvent(id, CREATED)]), Ok(id))
  }

  function Revoke(db: Ledger, resident: ResidentId, estate: EstateId, id: InvitationId): (Ledger, Result<()>) {
    if !Owns(db, resident, estate, id) then (db, Err(NotFound))
    else (SetRow(db, id, db.invitations[id].(status := REVOKED)).(history := db.history + [InvitationEvent(id, WITHDRAWN)]), Ok(()))
  }

  predicate Owns(db: Ledger, resident: ResidentId, estate: EstateId, id: InvitationId) {
    id in db.invitations && db.invitations[id].resident == resident && db.invitations[id].estate == estate
  }

  function SetRow(db: Ledger, id: InvitationId, row: Invitation): Ledger {
    db.(invitations := db.invitations[id := row])
  }

  // ---- Entry and exit ----

  /** The reading half of an entry: the checks made before the compare-and-swap. */
  function CheckEntry(db: Ledger, estate: EstateId, id: InvitationId): Result<EntryPolicy> {
    if id !in db.invitations || db.invitations[id].estate != estate then Err(NotFound)
    else if Withdrawn(db.invitations[id].status) then Err(Forbidden)
    else if db.invitations[id].validUntil < db.clock then Err(Forbidden)
    else Ok(db.invitations[id].policy)
  }

  /** The writing half: compare-and-swap ACTIVE to USED, refuse a second open visit, record the visit. */
  function CommitEntry(db: Ledger, id: InvitationId, policy: EntryPolicy): (Ledger, Result<VisitId>)
    requires id in db.invitations
  {
    if policy == ONE_TIME && db.invitations[id].status != ACTIVE then (db, Err(Conflict))
    else if HasOpenVisit(db.visits, id) then (db, Err(Conflict))
    else
      var row := db.invitations[id];
      var visit := |db.visits|;
      (db.(invitations := db.invitations[id := if policy == ONE_TIME then row.(status := USED) else row],
           visits := db.visits + [Visit(id, Some(db.clock), None)],
           gateEvents := db.gateEvents + [GateEvent(visit, ENTRY)],
           history := db.history + [InvitationEvent(id, ENTERED)]),
       Ok(visit))
  }

  function RecordEntry(db: Ledger, estate: EstateId, id: InvitationId): (Ledger, Result<VisitId>) {
    match CheckEntry(db, estate, id)
    case Err(e) => (db, Err(e))
    case Ok(policy) => CommitEntry(db, id, policy)
  }

  function RecordExit(db: Ledger, estate: EstateId, visit: VisitId): (Ledger, Result<VisitId>) {
    if visit >= |db.visits| then (db, Err(NotFound))
    else
      var v := db.visits[visit];
      if v.invitation !in db.invitations || db.invitations[v.invitation].estate != estate then (db, Err(NotFound))
      else if v.enteredAt.None? then (db, Err(Forbidden))
      else if v.exitedAt.Some? then (db, Err(Conflict))
      else
        (db.(visits := db.visits[visit := v.(exitedAt := Some(db.clock))],
             gateEvents := db.gateEvents + [GateEvent(visit, EXIT)],
             history := db.history + [InvitationEvent(v.invitation, EXITED)]),
         Ok(visit))
  }

  function DenyEntry(db: Ledger, estate: EstateId, id: InvitationId): Result<()> {
    if id !in db.invitations || db.invitations[id].estate != estate then Err(NotFound) else Ok(())
  }

  // ---- Looking a pass up, which may mark it expired ----

  /** The outcome the gate sees for the row a scan matched, if any. */
  function Verdict(found: Option<Invitation>, estate: EstateId, now: Time): Outcome {
    if found.None? || found.value.estate != estate then UNKNOWN
    else if Withdrawn(found.value.status) then WITHDRAWN_PASS
    else if found.value.policy == ONE_TIME && found.value.status == USED then ALREADY_USED
    else if found.value.validUntil < now then PAST
    else if found.value.validFrom > now then NOT_YET_VALID
    else VALID
  }

  function Lookup(db: Ledger, id: Option<InvitationId>): Option<Invitation> {
    if id.Some? && id.value in db.invitations then Some(db.invitations[id.value]) else None
  }

  function Verify(db: Ledger, estate: EstateId, id: Option<InvitationId>): (Ledger, Outcome) {
    var outcome := Verdict(Lookup(db, id), estate, db.clock);
    if outcome == PAST then (SetRow(db, id.value, db.invitations[id.value].(status := EXPIRED)), outcome)
    else (db, outcome)
  }

  /** The visitor's own link page. */
  function OpenLink(db: Ledger, id: Option<InvitationId>): (Ledger, Result<Status>) {
    if Lookup(db, id).None? then (db, Err(NotFound))
    else
      var row := db.invitations[id.value];
      if Withdrawn(row.status) then (db, Err(Gone))
      else if row.validUntil < db.clock && row.status != USED then (SetRow(db, id.value, row.(status := EXPIRED)), Ok(EXPIRED))
      else (db, Ok(row.status))
  }

  // ---- Extending ----

  /** The reading half of an extension. */
  function DecideExtension(db: Ledger, resident: ResidentId, estate: EstateId, id: InvitationId,
                           minutes: int, rules: Rules, zone: Time -> int): Result<PendingExtension> {
    if !Owns(db, resident, estate, id) then Err(NotFound)
    else
      match EvaluateExtension(db.invitations[id], rules, minutes, db.clock, zone)
      case Granted(until, m) => Ok(PendingExtension(id, db.invitations[id], until, m))
      case Denied(AlreadyUsed) => Err(Conflict)
      case Denied(InvalidAmount) => Err(BadRequest)
      case Denied(TooLongRequest) => Err(BadRequest)
      case Denied(TooLongTotal) => Err(BadRequest)
      case Denied(_) => Err(Forbidden)
  }

  /** The writing half: compare-and-swap on validUntil; an EXPIRED row that was read comes back as ACTIVE. */
  function CommitExtension(db: Ledger, p: PendingExtension): (Ledger, Result<Time>)
    requires p.id in db.invitations
  {
    var row := db.invitations[p.id];
    if row.validUntil != p.seen.validUntil || Withdrawn(row.status) then (db, Err(Conflict))
    else
      var status := if p.seen.status == EXPIRED then ACTIVE else row.status;
      (SetRow(db, p.id, row.(validUntil := p.newValidUntil, status := status)), Ok(p.newValidUntil))
  }

  function Extend(db: Ledger, resident: ResidentId, estate: EstateId, id: InvitationId,
                  minutes: int, rules: Rules, zone: Time -> int): (Ledger, Result<Time>) {
    match DecideExtension(db, resident, estate, id, minutes, rules, zone)
    case Err(e) => (db, Err(e))
    case Ok(p) => CommitExtension(db, p)
  }

  /** An extension in one go succeeds exactly when the pass is the resident's own and no rule, taken on its own, forbids it. */
  lemma ExtendSucceedsExactly(db: Ledger, resident: ResidentId, estate: EstateId, id: InvitationId,
                              minutes: int, rules: Rules, zone: Time -> int)
    ensures Extend(db, resident, estate, id, minutes, rules, zone).1.Ok?
      <==> Owns(db, resident, estate, id) && forall code :: !Refuses(code, db.invitations[id], rules, minutes, db.clock, zone)
  {
    if Owns(db, resident, estate, id) {
      DecisionIsFirstRefusal(db.invitations[id], rules, minutes, db.clock, zone);
      assert Refuses(RevokedPass, db.invitations[id], rules, minutes, db.clock, zone) <==> Withdrawn(db.invitations[id].status);
      hide EvaluateExtension, Refuses;
    }
  }

  // ---- The expiry sweep's conditional updates ----

  predicate Overdue(row: Invitation, at: Time) {
    row.status == ACTIVE && row.validUntil < at
  }

  function ExpireAll(rows: map<InvitationId, Invitation>, at: Time): map<InvitationId, Invitation> {
    map id | id in rows :: if Overdue(rows[id], at) then rows[id].(status := EXPIRED) else rows[id]
  }

  function ExpireOne(rows: map<InvitationId, Invitation>, id: InvitationId, at: Time): map<InvitationId, Invitation> {
    if id in rows && Overdue(rows[id], at) then rows[id := rows[id].(status := EXPIRED)] else rows
  }
}
