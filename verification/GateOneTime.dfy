/** A ONE_TIME invitation admits once, in every interleaving. */
module GateOneTime {
  import opened Domain
  import opened ExtensionRules
  import opened GateLedger
  import opened GateMachine

  /** How one row may change in any single step. */
  predicate Evolves(before: Invitation, after: Invitation) {
    && after == before.(validUntil := after.validUntil, status := after.status)
    && before.validUntil <= after.validUntil
    && (Withdrawn(before.status) ==> Withdrawn(after.status))
    && (before.policy == ONE_TIME && before.status == USED ==> after.status == USED || Withdrawn(after.status))
    && (before.status == EXPIRED && before.validUntil == after.validUntil ==> after.status == EXPIRED || Withdrawn(after.status))
  }

  /** A request in flight can only hold what some earlier state of its row showed. */
  predicate Remembers(r: Request, rows: map<InvitationId, Invitation>) {
    match r
    case EntryRequest(id, policy) => id in rows && rows[id].policy == policy
    case ExtensionRequest(p) =>
      && p.id in rows
      && Evolves(p.seen, rows[p.id])
      && p.seen.validUntil < p.newValidUntil
      && !(p.seen.policy == ONE_TIME && p.seen.status == USED)
  }

  predicate Admitted(db: Ledger, id: InvitationId) {
    exists i :: 0 <= i < |db.visits| && db.visits[i].invitation == id
  }

  ghost predicate Inv(g: Gate) {
    && (forall i :: 0 <= i < |g.db.visits| ==> g.db.visits[i].invitation in g.db.invitations)
    && (forall i, j :: 0 <= i < j < |g.db.visits| && g.db.visits[i].invitation == g.db.visits[j].invitation
          ==> g.db.invitations[g.db.visits[i].invitation].policy == MULTI_ENTRY)
    && (forall id :: id in g.db.invitations && g.db.invitations[id].policy == ONE_TIME && Admitted(g.db, id)
          ==> g.db.invitations[id].status == USED || Withdrawn(g.db.invitations[id].status))
    && (forall r :: r in g.requests ==> Remembers(g.requests[r], g.db.invitations))
  }

  /** Every row of before is in after, evolved. */
  ghost predicate RowsEvolve(before: map<InvitationId, Invitation>, after: map<InvitationId, Invitation>) {
    forall id :: id in before ==> id in after && Evolves(before[id], after[id])
  }

  lemma StillRemembers(r: Request, before: map<InvitationId, Invitation>, after: map<InvitationId, Invitation>)
    requires Remembers(r, before) && RowsEvolve(before, after)
    ensures Remembers(r, after)
  {
  }

  /** The key step: an extension that read EXPIRED can only win its compare-and-swap while the row is still EXPIRED. */
  lemma ReactivationFindsTheRowExpired(db: Ledger, p: PendingExtension)
    requires Remembers(ExtensionRequest(p), db.invitations)
    requires p.seen.status == EXPIRED && CommitExtension(db, p).1.Ok?
    ensures db.invitations[p.id].status == EXPIRED
  {
  }

  lemma CommittedExtensionEvolves(db: Ledger, p: PendingExtension)
    requires Remembers(ExtensionRequest(p), db.invitations)
    ensures RowsEvolve(db.invitations, CommitExtension(db, p).0.invitations)
  {
    if p.seen.status == EXPIRED && CommitExtension(db, p).1.Ok? {
      ReactivationFindsTheRowExpired(db, p);
    }
  }

  lemma CommittedEntryEvolves(db: Ledger, id: InvitationId, policy: EntryPolicy)
    requires id in db.invitations
    ensures RowsEvolve(db.invitations, CommitEntry(db, id, policy).0.invitations)
  {
    hide HasOpenVisit;
  }

  lemma LookupsEvolve(db: Ledger, estate: EstateId, found: Option<InvitationId>)
    ensures RowsEvolve(db.invitations, Verify(db, estate, found).0.invitations)
    ensures RowsEvolve(db.invitations, OpenLink(db, found).0.invitations)
  {
  }

  lemma SweepsEvolve(rows: map<InvitationId, Invitation>, id: InvitationId, at: Time)
    ensures RowsEvolve(rows, ExpireAll(rows, at)) && RowsEvolve(rows, ExpireOne(rows, id, at))
  {
  }

  lemma DecidedIsRemembered(db: Ledger, resident: ResidentId, estate: EstateId, id: InvitationId, minutes: int, rules: Rules, zone: Time -> int)
    ensures var decided := DecideExtension(db, resident, estate, id, minutes, rules, zone);
      decided.Ok? ==> Remembers(ExtensionRequest(decided.value), db.invitations)
  {
  }

  /** Rows only ever evolve: entry, exit, lookup, sweep, withdrawal and extension alike. */
  lemma StepEvolvesRows(g: Gate, a: Action, zone: Time -> int)
    requires Inv(g)
    ensures RowsEvolve(g.db.invitations, Step(g, a, zone).db.invitations)
  {
    hide DecideExtension, CommitExtension, CommitEntry, Verify, OpenLink, ExpireAll, ExpireOne, CreateInvitation, Revoke, RecordExit;
    match a
    case FinishExtension(request) =>
      if request in g.requests && g.requests[request].ExtensionRequest? {
        CommittedExtensionEvolves(g.db, g.requests[request].pending);
      }
    case ExtendNow(resident, estate, id, minutes, rules) =>
      DecidedIsRemembered(g.db, resident, estate, id, minutes, rules, zone);
      var decided := DecideExtension(g.db, resident, estate, id, minutes, rules, zone);
      if decided.Ok? {
        CommittedExtensionEvolves(g.db, decided.value);
      }
    case FinishEntry(request) =>
      if request in g.requests && g.requests[request].EntryRequest? {
        CommittedEntryEvolves(g.db, g.requests[request].id, g.requests[request].policy);
      }
    case Enter(estate, id) =>
      if CheckEntry(g.db, estate, id).Ok? {
        CommittedEntryEvolves(g.db, id, CheckEntry(g.db, estate, id).value);
      }
    case Scan(estate, found) => LookupsEvolve(g.db, estate, found);
    case ViewLink(found) => LookupsEvolve(g.db, 0, found);
    case SweepOld(at) => SweepsEvolve(g.db.invitations, 0, at);
    case SweepOne(id, at) => SweepsEvolve(g.db.invitations, id, at);
    case _ => OthersEvolve(g, a, zone);
  }

  lemma OthersEvolve(g: Gate, a: Action, zone: Time -> int)
    requires a.Tick? || a.Create? || a.Withdraw? || a.StartEntry? || a.Exit? || a.StartExtension?
    ensures RowsEvolve(g.db.invitations, Step(g, a, zone).db.invitations)
  {
    hide TokenTaken, DecideExtension, CheckEntry;
  }

  lemma NewRequestsRemember(g: Gate, a: Action, zone: Time -> int)
    requires Inv(g)
    ensures var g' := Step(g, a, zone);
      forall r :: r in g'.requests ==> Remembers(g'.requests[r], g'.db.invitations)
  {
    var g' := Step(g, a, zone);
    StepEvolvesRows(g, a, zone);
    if a.StartExtension? {
      DecidedIsRemembered(g.db, a.resident, a.estate, a.id, a.minutes, a.rules, zone);
    }
    hide DecideExtension, CommitExtension, CommitEntry, RowsEvolve;
    forall r | r in g'.requests
      ensures Remembers(g'.requests[r], g'.db.invitations)
    {
      if r in g.requests && g'.requests[r] == g.requests[r] {
        StillRemembers(g.requests[r], g.db.invitations, g'.db.invitations);
      }
    }
  }

  /** Visits are only ever appended, one at a time, and never to a ONE_TIME row that already has one. */
  ghost predicate AdmitsOnce(before: Ledger, after: Ledger) {
    && |before.visits| <= |after.visits| <= |before.visits| + 1
    && (forall i :: 0 <= i < |before.visits| ==> after.visits[i].invitation == before.visits[i].invitation)
    && (|after.visits| > |before.visits| ==>
          var id := after.visits[|before.visits|].invitation;
          && id in before.invitations && id in after.invitations
          && (before.invitations[id].policy == ONE_TIME ==> !Admitted(before, id) && after.invitations[id].status == USED))
  }

  lemma StepAdmitsOnce(g: Gate, a: Action, zone: Time -> int)
    requires Inv(g)
    ensures AdmitsOnce(g.db, Step(g, a, zone).db)
  {
    hide DecideExtension, EvaluateExtension, TokenTaken, HasOpenVisit, Evolves;
  }

  lemma EvolutionKeepsInv(g: Gate, g': Gate)
    requires Inv(g)
    requires RowsEvolve(g.db.invitations, g'.db.invitations) && AdmitsOnce(g.db, g'.db)
    requires forall r :: r in g'.requests ==> Remembers(g'.requests[r], g'.db.invitations)
    ensures Inv(g')
  {
    hide Remembers, Withdrawn;
    forall id | id in g'.db.invitations && g'.db.invitations[id].policy == ONE_TIME && Admitted(g'.db, id)
      ensures g'.db.invitations[id].status == USED || Withdrawn(g'.db.invitations[id].status)
    {
      var i :| 0 <= i < |g'.db.visits| && g'.db.visits[i].invitation == id;
      if i < |g.db.visits| {
        assert g.db.visits[i].invitation == id && Admitted(g.db, id);
        assert Evolves(g.db.invitations[id], g'.db.invitations[id]);
      }
    }
  }

  lemma StepKeepsInv(g: Gate, a: Action, zone: Time -> int)
    requires Inv(g)
    ensures Inv(Step(g, a, zone))
  {
    StepEvolvesRows(g, a, zone);
    NewRequestsRemember(g, a, zone);
    StepAdmitsOnce(g, a, zone);
    EvolutionKeepsInv(g, Step(g, a, zone));
    hide Step, Inv;
  }

  lemma {:induction false} RunKeepsInv(actions: seq<Action>, zone: Time -> int)
    ensures Inv(Run(actions, zone))
  {
    if actions != [] {
      RunKeepsInv(actions[..|actions| - 1], zone);
      StepKeepsInv(Run(actions[..|actions| - 1], zone), actions[|actions| - 1], zone);
    }
  }

  /** The visits recorded against one invitation. */
  function VisitsOf(db: Ledger, id: InvitationId): set<VisitId> {
    set i | 0 <= i < |db.visits| && db.visits[i].invitation == id
  }

  lemma AtMostOneVisit(g: Gate, id: InvitationId)
    requires Inv(g) && id in g.db.invitations && g.db.invitations[id].policy == ONE_TIME
    ensures |VisitsOf(g.db, id)| <= 1
  {
    var visits := VisitsOf(g.db, id);
    if visits != {} {
      var v :| v in visits;
      assert visits == {v};
    }
  }

  /** However the requests interleave, a ONE_TIME invitation has at most one visit. */
  lemma OneTimeAdmitsOnce(actions: seq<Action>, zone: Time -> int, id: InvitationId)
    requires id in Run(actions, zone).db.invitations
    requires Run(actions, zone).db.invitations[id].policy == ONE_TIME
    ensures |VisitsOf(Run(actions, zone).db, id)| <= 1
  {
    RunKeepsInv(actions, zone);
    AtMostOneVisit(Run(actions, zone), id);
  }

  predicate Spent(g: Gate, id: InvitationId) {
    id in g.db.invitations &&
    var row := g.db.invitations[id];
    row.policy == ONE_TIME && (row.status == USED || Withdrawn(row.status))
  }

  lemma StepKeepsSpent(g: Gate, a: Action, zone: Time -> int, id: InvitationId)
    requires Inv(g) && Spent(g, id)
    ensures Spent(Step(g, a, zone), id)
  {
    StepEvolvesRows(g, a, zone);
    hide Step, Inv;
  }

  lemma RunAppends(actions: seq<Action>, a: Action, zone: Time -> int)
    ensures Run(actions + [a], zone) == Step(Run(actions, zone), a, zone)
  {
    assert (actions + [a])[..|actions|] == actions;
  }

  /** Once used or withdrawn, a ONE_TIME pass is never ACTIVE again, whatever is still in flight. */
  lemma {:induction false} SpentStaysSpent(earlier: seq<Action>, later: seq<Action>, zone: Time -> int, id: InvitationId)
    requires Spent(Run(earlier, zone), id)
    ensures Spent(Run(earlier + later, zone), id)
  {
    hide Run, Spent, Step, Inv;
    if later == [] {
      assert earlier + later == earlier;
    } else {
      var shorter, a := later[..|later| - 1], later[|later| - 1];
      SpentStaysSpent(earlier, shorter, zone, id);
      RunKeepsInv(earlier + shorter, zone);
      StepKeepsSpent(Run(earlier + shorter, zone), a, zone, id);
      RunAppends(earlier + shorter, a, zone);
      assert earlier + later == earlier + shorter + [a];
    }
  }
}
