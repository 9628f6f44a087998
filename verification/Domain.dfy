/** The rows and small types every part of the gate works on. */
module Domain {
  /** Milliseconds since the epoch. */
  type Time = int
  type EstateId = nat
  type ResidentId = nat
  type InvitationId = nat
  type VisitId = nat

  datatype Option<+T> = None | Some(value: T)

  /** The exceptions the services throw, and the value they return otherwise. */
  datatype Error = NotFound | Forbidden | Conflict | BadRequest | Gone | Internal
  datatype Result<+T> = Ok(value: T) | Err(error: Error)

  datatype Status = PENDING | ACTIVE | USED | EXPIRED | REVOKED | CANCELLED
  datatype EntryPolicy = ONE_TIME | MULTI_ENTRY
  datatype VisitorType = GUEST | COURIER

  datatype Invitation = Invitation(
    estate: EstateId,
    resident: ResidentId,
    tokenHash: string,
    codeHash: string,
    validFrom: Time,
    validUntil: Time,
    status: Status,
    policy: EntryPolicy)

  datatype Visit = Visit(invitation: InvitationId, enteredAt: Option<Time>, exitedAt: Option<Time>)

  datatype GateEventKind = ENTRY | EXIT
  datatype GateEvent = GateEvent(visit: VisitId, kind: GateEventKind)

  datatype InvitationEventKind = CREATED | ENTERED | EXITED | WITHDRAWN
  datatype InvitationEvent = InvitationEvent(invitation: InvitationId, kind: InvitationEventKind)

  const MINUTE_MS := 60_000
  const DAY_MS := 86_400_000

  predicate Withdrawn(s: Status) {
    s == REVOKED || s == CANCELLED
  }

  function Min(a: int, b: int): int {
    if a < b then a else b
  }

  function Max(a: int, b: int): int {
    if a < b then b else a
  }
}
