/**
 * Every interleaving of the gate's requests. Entry and extension read first and
 * write later; anything may happen in between. The sweep's writes carry the time
 * it read when it started. All other operations are single steps.
 */
module GateMachine {
  import opened Domain
  import opened ExtensionRules
  import opened GateLedger

  type RequestId = nat

  datatype Request =
    | EntryRequest(id: InvitationId, policy: EntryPolicy)
    | ExtensionRequest(pending: PendingExtension)

  datatype Gate = Gate(db: Ledger, requests: map<RequestId, Request>)

  const EMPTY_GATE := Gate(EMPTY_LEDGER, map[])

  datatype Action =
    | Tick(elapsed: nat)
    | Create(id: InvitationId, draft: Draft)
    | Withdraw(resident: ResidentId, estate: EstateId, id: InvitationId)
    | StartEntry(request: RequestId, estate: EstateId, id: InvitationId)
    | FinishEntry(request: RequestId)
    | Enter(estate: EstateId, id: InvitationId)
    | Exit(estate: EstateId, visit: VisitId)
    | Scan(estate: EstateId, found: Option<InvitationId>)
    | ViewLink(found: Option<InvitationId>)
    | StartExtension(request: RequestId, resident: ResidentId, estate: EstateId, id: InvitationId, minutes: int, rules: Rules)
    | FinishExtension(request: RequestId)
    | ExtendNow(resident: ResidentId, estate: EstateId, id: InvitationId, minutes: int, rules: Rules)
    | SweepOld(at: Time)
    | SweepOne(id: InvitationId, at: Time)

  function Start(g: Gate, id: RequestId, r: Request): Gate {
    if id in g.requests then g else g.(requests := g.requests[id := r])
  }

  function Step(g: Gate, a: Action, zone: Time -> int): Gate {
    match a
    case Tick(elapsed) => g.(db := g.db.(clock := g.db.clock + elapsed))
    case Create(id, draft) => g.(db := CreateInvitation(g.db, id, draft).0)
    case Withdraw(resident, estate, id) => g.(db := Revoke(g.db, resident, estate, id).0)
    case StartEntry(request, estate, id) =>
      (match CheckEntry(g.db, estate, id)
       case Ok(policy) => Start(g, request, EntryRequest(id, policy))
       case Err(_) => g)
    case FinishEntry(request) =>
      if request in g.requests && g.requests[request].EntryRequest? && g.requests[request].id in g.db.invitations
      then Gate(CommitEntry(g.db, g.requests[request].id, g.requests[request].policy).0, g.requests - {request})
      else g
    case Enter(estate, id) => g.(db := RecordEntry(g.db, estate, id).0)
    case Exit(estate, visit) => g.(db := RecordExit(g.db, estate, visit).0)
    case Scan(estate, found) => g.(db := Verify(g.db, estate, found).0)
    case ViewLink(found) => g.(db := OpenLink(g.db, found).0)
    case StartExtension(request, resident, estate, id, minutes, rules) =>
      (match DecideExtension(g.db, resident, estate, id, minutes, rules, zone)
       case Ok(p) => Start(g, request, ExtensionRequest(p))
       case Err(_) => g)
    case FinishExtension(request) =>
      if request in g.requests && g.requests[request].ExtensionRequest? && g.requests[request].pending.id in g.db.invitations
      then Gate(CommitExtension(g.db, g.requests[request].pending).0, g.requests - {request})
      else g
    case ExtendNow(resident, estate, id, minutes, rules) =>
      g.(db := Extend(g.db, resident, estate, id, minutes, rules, zone).0)
    case SweepOld(at) => if at <= g.db.clock then g.(db := g.db.(invitations := ExpireAll(g.db.invitations, at))) else g
    case SweepOne(id, at) => if at <= g.db.clock then g.(db := g.db.(invitations := ExpireOne(g.db.invitations, id, at))) else g
  }

  /** The state after a whole run from an empty database. */
  function Run(actions: seq<Action>, zone: Time -> int): Gate {
    if actions == [] then EMPTY_GATE
    else Step(Run(actions[..|actions| - 1], zone), actions[|actions| - 1], zone)
  }
}
