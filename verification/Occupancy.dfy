/** Apartments, the residents assigned to them, and the invites that bring new ones in. */
module Occupancy {
  import opened Domain

  type ApartmentId = nat
  type InviteId = nat
  type Email = string

  const INVITE_TTL_MS := 120 * MINUTE_MS

  datatype AccountStatus = Live | Suspended | Removed
  datatype Apartment = Apartment(estate: EstateId, occupied: bool)
  datatype Resident = Resident(estate: EstateId, apartment: ApartmentId, email: Email, status: AccountStatus)

  datatype InviteStatus = Open | Consumed | Cancelled
  datatype Invite = Invite(
    estate: EstateId, apartment: ApartmentId, email: Email, tokenHash: string, status: InviteStatus, expiresAt: Time)

  /** The audit entry of a completed invite. */
  datatype Completion = Completion(invite: InviteId, resident: ResidentId)

  /** emails holds the address of every account, whatever its role; accounts are never deleted. */
  datatype Register = Register(
    apartments: map<ApartmentId, Apartment>,
    residents: map<ResidentId, Resident>,
    emails: set<Email>,
    invites: map<InviteId, Invite>,
    completions: seq<Completion>)

  const EMPTY_REGISTER := Register(map[], map[], {}, map[], [])

  // ---- Apartments and residents ----

  predicate LivesIn(r: Resident, a: ApartmentId) {
    r.apartment == a && r.status != Removed
  }

  function Assigned(residents: map<ResidentId, Resident>, a: ApartmentId): set<ResidentId> {
    set x | x in residents && LivesIn(residents[x], a)
  }

  function AddApartment(r: Register, estate: EstateId, id: ApartmentId): (Register, Result<ApartmentId>) {
    if id in r.apartments then (r, Err(Internal))
    else (r.(apartments := r.apartments[id := Apartment(estate, false)]), Ok(id))
  }

  predicate InEstate(r: Register, estate: EstateId, a: ApartmentId) {
    a in r.apartments && r.apartments[a].estate == estate
  }

  function Flagged(apartments: map<ApartmentId, Apartment>, a: ApartmentId, occupied: bool): map<ApartmentId, Apartment> {
    if a in apartments then apartments[a := apartments[a].(occupied := occupied)] else apartments
  }

  function AddResident(r: Register, estate: EstateId, a: ApartmentId, email: Email, id: ResidentId): (Register, Result<ResidentId>) {
    if !InEstate(r, estate, a) then (r, Err(NotFound))
    else if email in r.emails || id in r.residents then (r, Err(Internal))
    else
      (r.(residents := r.residents[id := Resident(estate, a, email, Live)],
          emails := r.emails + {email},
          apartments := Flagged(r.apartments, a, true)),
       Ok(id))
  }

  /** Counts who is left and rewrites the flag. */
  function Recomputed(r: Register, a: ApartmentId): Register {
    r.(apartments := Flagged(r.apartments, a, |Assigned(r.residents, a)| > 0))
  }

  predicate KnownResident(r: Register, estate: EstateId, id: ResidentId) {
    id in r.residents && r.residents[id].estate == estate
  }

  function MoveResident(r: Register, estate: EstateId, id: ResidentId, to: Option<ApartmentId>): (Register, Result<ResidentId>) {
    if !KnownResident(r, estate, id) then (r, Err(NotFound))
    else
      var from := r.residents[id].apartment;
      if to.None? || to.value == from then (r, Ok(id))
      else if !InEstate(r, estate, to.value) then (r, Err(NotFound))
      else
        var moved := r.(residents := r.residents[id := r.residents[id].(apartment := to.value)]);
        (Recomputed(Recomputed(moved, from), to.value), Ok(id))
  }

  function RemoveResident(r: Register, estate: EstateId, id: ResidentId, passwordOk: bool): (Register, Result<ResidentId>) {
    if !KnownResident(r, estate, id) then (r, Err(NotFound))
    else if !passwordOk then (r, Err(Forbidden))
    else
      var removed := r.(residents := r.residents[id := r.residents[id].(status := Removed)]);
      (Recomputed(removed, r.residents[id].apartment), Ok(id))
  }

  /** Suspending and reinstating: the flag is left alone. */
  function SetResidentStatus(r: Register, estate: EstateId, id: ResidentId, suspend: bool): (Register, Result<ResidentId>) {
    if !KnownResident(r, estate, id) then (r, Err(NotFound))
    else (r.(residents := r.residents[id := r.residents[id].(status := if suspend then Suspended else Live)]), Ok(id))
  }

  // ---- Invites ----

  predicate LinkTaken(invites: map<InviteId, Invite>, tokenHash: string) {
    exists i :: i in invites && invites[i].tokenHash == tokenHash
  }

  /** A new invite supersedes the apartment's open ones. */
  function Superseded(invites: map<InviteId, Invite>, a: ApartmentId): map<InviteId, Invite> {
    map i | i in invites :: if invites[i].apartment == a && invites[i].status == Open then invites[i].(status := Cancelled) else invites[i]
  }

  function CreateInvite(r: Register, estate: EstateId, a: ApartmentId, email: Email, id: InviteId, tokenHash: string, now: Time)
    : (Register, Result<InviteId>)
  {
    if !InEstate(r, estate, a) then (r, Err(NotFound))
    else if r.apartments[a].occupied || email in r.emails then (r, Err(Conflict))
    else if id in r.invites || LinkTaken(r.invites, tokenHash) then (r, Err(Internal))
    else WriteInvite(r.(invites := Superseded(r.invites, a)), estate, a, email, id, tokenHash, now)
  }

  /** The row a new invite is written as. */
  function WriteInvite(r: Register, estate: EstateId, a: ApartmentId, email: Email, id: InviteId, tokenHash: string, now: Time)
    : (Register, Result<InviteId>)
  {
    if id in r.invites || LinkTaken(r.invites, tokenHash) then (r, Err(Internal))
    else (r.(invites := r.invites[id := Invite(estate, a, email, tokenHash, Open, now + INVITE_TTL_MS)]), Ok(id))
  }

  predicate KnownInvite(r: Register, estate: EstateId, id: InviteId) {
    id in r.invites && r.invites[id].estate == estate
  }

  /** A fresh link replaces the old one, even on a cancelled invite. */
  function ResendInvite(r: Register, estate: EstateId, id: InviteId, tokenHash: string, now: Time): (Register, Result<InviteId>) {
    if !KnownInvite(r, estate, id) then (r, Err(NotFound))
    else if r.invites[id].status == Consumed then (r, Err(Conflict))
    else WriteResend(r, id, tokenHash, now)
  }

  /** The write of a resend looks at nothing but the id. */
  function WriteResend(r: Register, id: InviteId, tokenHash: string, now: Time): (Register, Result<InviteId>)
    requires id in r.invites
  {
    if LinkTaken(r.invites, tokenHash) then (r, Err(Internal))
    else
      var renewed := r.invites[id].(tokenHash := tokenHash, expiresAt := now + INVITE_TTL_MS, status := Open);
      (r.(invites := r.invites[id := renewed]), Ok(id))
  }

  function CancelInvite(r: Register, estate: EstateId, id: InviteId): (Register, Result<InviteId>) {
    if !KnownInvite(r, estate, id) then (r, Err(NotFound))
    else if r.invites[id].status != Open then (r, Err(Conflict))
    else (WriteCancel(r, id), Ok(id))
  }

  function WriteCancel(r: Register, id: InviteId): Register
    requires id in r.invites
  {
    r.(invites := r.invites[id := r.invites[id].(status := Cancelled)])
  }

  /** found is the invite whose hash the presented link has, if any. */
  function FindLive(r: Register, found: Option<InviteId>, now: Time): Result<InviteId> {
    if found.None? || found.value !in r.invites then Err(NotFound)
    else if r.invites[found.value].status == Consumed then Err(Gone)
    else if r.invites[found.value].status != Open || r.invites[found.value].expiresAt < now then Err(Gone)
    else Ok(found.value)
  }

  /** An invite that has been looked up and checked, but not yet turned into an account. */
  datatype Ticket = Ticket(invite: InviteId, row: Invite)

  function CheckCompletion(r: Register, found: Option<InviteId>, now: Time): Result<Ticket> {
    match FindLive(r, found, now)
    case Err(e) => Err(e)
    case Ok(i) =>
      var row := r.invites[i];
      if row.apartment !in r.apartments then Err(NotFound)
      else if r.apartments[row.apartment].occupied then Err(Conflict)
      else Ok(Ticket(i, row))
  }

  /** The transaction that creates the account. An address already in use undoes all of it. */
  function CommitCompletion(r: Register, t: Ticket, id: ResidentId): (Register, Result<ResidentId>)
    requires t.invite in r.invites
  {
    if t.row.email in r.emails || id in r.residents then (r, Err(Internal))
    else
      (Register(Flagged(r.apartments, t.row.apartment, true),
                r.residents[id := Resident(t.row.estate, t.row.apartment, t.row.email, Live)],
                r.emails + {t.row.email},
                r.invites[t.invite := r.invites[t.invite].(status := Consumed)],
                r.completions + [Completion(t.invite, id)]),
       Ok(id))
  }

  function CompleteInvite(r: Register, found: Option<InviteId>, now: Time, id: ResidentId): (Register, Result<ResidentId>) {
    match CheckCompletion(r, found, now)
    case Err(e) => (r, Err(e))
    case Ok(t) => CommitCompletion(r, t, id)
  }

  // ---- Every run, with the invite flow in halves ----

  type RequestId = nat

  /** A request that has read and checked, but not yet written all it will. */
  datatype Pending =
    | Completing(ticket: Ticket)
    | Resending(invite: InviteId)
    | Cancelling(invite: InviteId)
    | Inviting(estate: EstateId, apartment: ApartmentId, email: Email, superseded: bool)

  datatype Office = Office(register: Register, pending: map<RequestId, Pending>)

  const EMPTY_OFFICE := Office(EMPTY_REGISTER, map[])

  datatype Action =
    | NewApartment(estate: EstateId, apartment: ApartmentId)
    | OtherAccount(email: Email)
    | NewResident(estate: EstateId, apartment: ApartmentId, email: Email, resident: ResidentId)
    | Move(estate: EstateId, resident: ResidentId, to: Option<ApartmentId>)
    | Remove(estate: EstateId, resident: ResidentId, passwordOk: bool)
    | SetStatus(estate: EstateId, resident: ResidentId, suspend: bool)
    | NewInvite(estate: EstateId, apartment: ApartmentId, email: Email, invite: InviteId, tokenHash: string, now: Time)
    | StartInvite(request: RequestId, estate: EstateId, apartment: ApartmentId, email: Email)
    | Supersede(request: RequestId)
    | FinishInvite(request: RequestId, invite: InviteId, tokenHash: string, now: Time)
    | Resend(estate: EstateId, invite: InviteId, tokenHash: string, now: Time)
    | StartResend(request: RequestId, estate: EstateId, invite: InviteId)
    | FinishResend(request: RequestId, tokenHash: string, now: Time)
    | Cancel(estate: EstateId, invite: InviteId)
    | StartCancel(request: RequestId, estate: EstateId, invite: InviteId)
    | FinishCancel(request: RequestId)
    | Complete(found: Option<InviteId>, now: Time, resident: ResidentId)
    | StartCompletion(request: RequestId, found: Option<InviteId>, now: Time)
    | FinishCompletion(request: RequestId, resident: ResidentId)

  predicate ForResidents(a: Action) {
    a.NewApartment? || a.OtherAccount? || a.NewResident? || a.Move? || a.Remove? || a.SetStatus?
  }

  predicate Starts(a: Action) {
    a.StartInvite? || a.StartResend? || a.StartCancel? || a.StartCompletion?
  }

  predicate Finishes(a: Action) {
    a.Supersede? || a.FinishInvite? || a.FinishResend? || a.FinishCancel? || a.FinishCompletion?
  }

  function Start(o: Office, request: RequestId, p: Pending): Office {
    if request in o.pending then o else o.(pending := o.pending[request := p])
  }

  predicate MayResend(r: Register, estate: EstateId, id: InviteId) {
    KnownInvite(r, estate, id) && r.invites[id].status != Consumed
  }

  predicate MayCancel(r: Register, estate: EstateId, id: InviteId) {
    KnownInvite(r, estate, id) && r.invites[id].status == Open
  }

  predicate MayInvite(r: Register, estate: EstateId, a: ApartmentId, email: Email) {
    InEstate(r, estate, a) && !r.apartments[a].occupied && email !in r.emails
  }

  /** The writes of a request under way; it is over once it has written the last. */
  function Finish(o: Office, a: Action): Office
    requires Finishes(a) && a.request in o.pending
  {
    var r, p, rest := o.register, o.pending[a.request], o.pending - {a.request};
    match a
    case Supersede(request) =>
      if p.Inviting? && !p.superseded
      then Office(r.(invites := Superseded(r.invites, p.apartment)), o.pending[request := p.(superseded := true)])
      else o
    case FinishInvite(_, id, tokenHash, now) =>
      if p.Inviting? && p.superseded then Office(WriteInvite(r, p.estate, p.apartment, p.email, id, tokenHash, now).0, rest) else o
    case FinishResend(_, tokenHash, now) =>
      if p.Resending? && p.invite in r.invites then Office(WriteResend(r, p.invite, tokenHash, now).0, rest) else o
    case FinishCancel(_) =>
      if p.Cancelling? && p.invite in r.invites then Office(WriteCancel(r, p.invite), rest) else o
    case FinishCompletion(_, resident) =>
      if p.Completing? && p.ticket.invite in r.invites then Office(CommitCompletion(r, p.ticket, resident).0, rest) else o
  }

  function Step(o: Office, a: Action): Office {
    var r := o.register;
    match a
    case NewApartment(estate, apartment) => o.(register := AddApartment(r, estate, apartment).0)
    case OtherAccount(email) => o.(register := r.(emails := r.emails + {email}))
    case NewResident(estate, apartment, email, resident) => o.(register := AddResident(r, estate, apartment, email, resident).0)
    case Move(estate, resident, to) => o.(register := MoveResident(r, estate, resident, to).0)
    case Remove(estate, resident, passwordOk) => o.(register := RemoveResident(r, estate, resident, passwordOk).0)
    case SetStatus(estate, resident, suspend) => o.(register := SetResidentStatus(r, estate, resident, suspend).0)
    case NewInvite(estate, apartment, email, invite, tokenHash, now) =>
      o.(register := CreateInvite(r, estate, apartment, email, invite, tokenHash, now).0)
    case Resend(estate, invite, tokenHash, now) => o.(register := ResendInvite(r, estate, invite, tokenHash, now).0)
    case Cancel(estate, invite) => o.(register := CancelInvite(r, estate, invite).0)
    case Complete(found, now, resident) => o.(register := CompleteInvite(r, found, now, resident).0)
    case StartInvite(request, estate, apartment, email) =>
      if MayInvite(r, estate, apartment, email) then Start(o, request, Inviting(estate, apartment, email, false)) else o
    case StartResend(request, estate, invite) => if MayResend(r, estate, invite) then Start(o, request, Resending(invite)) else o
    case StartCancel(request, estate, invite) => if MayCancel(r, estate, invite) then Start(o, request, Cancelling(invite)) else o
    case StartCompletion(request, found, now) =>
      (match CheckCompletion(r, found, now)
       case Err(_) => o
       case Ok(t) => Start(o, request, Completing(t)))
    case _ => if a.request in o.pending then Finish(o, a) else o
  }

  function Run(actions: seq<Action>): Office {
    if actions == [] then EMPTY_OFFICE else Step(Run(actions[..|actions| - 1]), actions[|actions| - 1])
  }
}
