/** What the gate's operations answer, against one another and over runs. */
module GateAnswers {
  import opened Domain
  import opened ExtensionRules
  import opened GateLedger
  import opened GateMachine
  import opened GateOneTime
  import opened GateExpiry

  // ---- Withdrawing ----

  /** Only the resident who made the pass may withdraw it, in the estate it was made for. */
  lemma RevokeSucceedsExactly(db: Ledger, resident: ResidentId, estate: EstateId, id: InvitationId)
    ensures var (after, r) := Revoke(db, resident, estate, id);
      && (r.Ok? <==> id in db.invitations && db.invitations[id].resident == resident && db.invitations[id].estate == estate)
      && (r.Err? ==> r.error == NotFound && after == db)
      && (r.Ok? ==> after.history == db.history + [InvitationEvent(id, WITHDRAWN)]
                    && forall other :: other in db.invitations && other != id ==>
                         other in after.invitations && after.invitations[other] == db.invitations[other])
  {
  }

  /** A withdrawn pass is refused everywhere: at scans, on its own page, at the gate and by extensions. */
  lemma WithdrawnIsRefused(db: Ledger, id: InvitationId, estate: EstateId, resident: ResidentId, minutes: int, rules: Rules, zone: Time -> int)
    requires id in db.invitations && (db.invitations[id].status == REVOKED || db.invitations[id].status == CANCELLED)
    requires db.invitations[id].estate == estate
    ensures Verify(db, estate, Some(id)) == (db, WITHDRAWN_PASS) && OpenLink(db, Some(id)) == (db, Err(Gone))
    ensures RecordEntry(db, estate, id) == (db, Err(Forbidden))
    ensures Extend(db, resident, estate, id, minutes, rules, zone).0 == db
            && Extend(db, resident, estate, id, minutes, rules, zone).1 in {Err(NotFound), Err(Forbidden)}
  {
  }

  predicate IsWithdrawn(db: Ledger, id: InvitationId, estate: EstateId) {
    id in db.invitations && db.invitations[id].estate == estate
    && (db.invitations[id].status == REVOKED || db.invitations[id].status == CANCELLED)
  }

  /** The entries of a pass that have passed their checks and not yet written. */
  function EntriesUnderWay(g: Gate, id: InvitationId): set<RequestId> {
    set r | r in g.requests && g.requests[r].EntryRequest? && g.requests[r].id == id
  }

  lemma StaysWithdrawn(g: Gate, a: Action, zone: Time -> int, id: InvitationId, estate: EstateId)
    requires Inv(g) && IsWithdrawn(g.db, id, estate)
    ensures IsWithdrawn(Step(g, a, zone).db, id, estate)
  {
    StepEvolvesRows(g, a, zone);
    hide Step, Inv;
  }

  /** Visits of a withdrawn pass come from entries under way before, one each. */
  lemma NoNewVisits(g: Gate, a: Action, zone: Time -> int, id: InvitationId, estate: EstateId)
    requires IsWithdrawn(g.db, id, estate)
    ensures var g' := Step(g, a, zone);
      |VisitsOf(g'.db, id)| + |EntriesUnderWay(g', id)| <= |VisitsOf(g.db, id)| + |EntriesUnderWay(g, id)|
  {
    var g' := Step(g, a, zone);
    var before, after := VisitsOf(g.db, id), VisitsOf(g'.db, id);
    var waiting, waiting' := EntriesUnderWay(g, id), EntriesUnderWay(g', id);
    VisitsOfStep(g, a, zone, id);
    UnderWayStep(g, a, zone, id, estate);
    hide Step, VisitsOf, EntriesUnderWay;
    if a.FinishEntry? && a.request in waiting {
      assert waiting' == waiting - {a.request};
    } else {
      assert after == before;
      assert waiting' == waiting;
    }
  }

  lemma VisitsOfStep(g: Gate, a: Action, zone: Time -> int, id: InvitationId)
    ensures var g' := Step(g, a, zone);
      && |VisitsOf(g'.db, id)| <= |VisitsOf(g.db, id)| + 1
      && (VisitsOf(g'.db, id) != VisitsOf(g.db, id) ==>
            (a.Enter? && a.id == id && CheckEntry(g.db, a.estate, id).Ok?) || (a.FinishEntry? && a.request in EntriesUnderWay(g, id)))
  {
    VisitsAreAdded(g, a, zone);
    hide Step, CheckEntry, VisitsOf;
    VisitsOfMore(g.db, Step(g, a, zone).db, id);
  }

  lemma VisitsOfMore(before: Ledger, after: Ledger, id: InvitationId)
    requires |before.visits| <= |after.visits| <= |before.visits| + 1
    requires forall v :: 0 <= v < |before.visits| ==> after.visits[v].invitation == before.visits[v].invitation
    ensures VisitsOf(after, id)
            == VisitsOf(before, id)
               + if |after.visits| > |before.visits| && after.visits[|before.visits|].invitation == id then {|before.visits|} else {}
  {
  }

  lemma VisitsAreAdded(g: Gate, a: Action, zone: Time -> int)
    ensures var visits, visits' := g.db.visits, Step(g, a, zone).db.visits;
      && |visits| <= |visits'| <= |visits| + 1
      && (forall v :: 0 <= v < |visits| ==> visits'[v].invitation == visits[v].invitation)
      && (|visits'| > |visits| ==>
            var id := visits'[|visits|].invitation;
            (a.Enter? && a.id == id && CheckEntry(g.db, a.estate, id).Ok?) || (a.FinishEntry? && a.request in EntriesUnderWay(g, id)))
  {
    hide DecideExtension, TokenTaken, HasOpenVisit;
  }

  lemma UnderWayStep(g: Gate, a: Action, zone: Time -> int, id: InvitationId, estate: EstateId)
    requires IsWithdrawn(g.db, id, estate)
    ensures EntriesUnderWay(Step(g, a, zone), id) == EntriesUnderWay(g, id) - if a.FinishEntry? then {a.request} else {}
  {
    hide DecideExtension, CommitExtension, CommitEntry, TokenTaken;
  }

  /**
   * Once the owner has withdrawn a pass, whatever follows: it is refused everywhere, and no entry that had not already
   * passed its checks adds a visit.
   */
  lemma {:induction false} WithdrawalHolds(earlier: seq<Action>, later: seq<Action>, zone: Time -> int,
                                           resident: ResidentId, estate: EstateId, id: InvitationId)
    requires var db := Run(earlier, zone).db;
      id in db.invitations && db.invitations[id].resident == resident && db.invitations[id].estate == estate
    ensures var before, after := Run(earlier, zone), Run(earlier + [Withdraw(resident, estate, id)] + later, zone);
      && IsWithdrawn(after.db, id, estate)
      && |VisitsOf(after.db, id)| + |EntriesUnderWay(after, id)| <= |VisitsOf(before.db, id)| + |EntriesUnderWay(before, id)|
  {
    var w := earlier + [Withdraw(resident, estate, id)];
    hide Run, VisitsOf, EntriesUnderWay;
    if later == [] {
      assert w + later == w;
      RunAppends(earlier, Withdraw(resident, estate, id), zone);
      WithdrawingAddsNothing(Run(earlier, zone), resident, estate, id, zone);
    } else {
      hide Step, IsWithdrawn;
      var shorter, a := later[..|later| - 1], later[|later| - 1];
      WithdrawalHolds(earlier, shorter, zone, resident, estate, id);
      RunKeepsInv(w + shorter, zone);
      StaysWithdrawn(Run(w + shorter, zone), a, zone, id, estate);
      NoNewVisits(Run(w + shorter, zone), a, zone, id, estate);
      RunAppends(w + shorter, a, zone);
      assert w + later == w + shorter + [a];
    }
  }

  lemma WithdrawingAddsNothing(g: Gate, resident: ResidentId, estate: EstateId, id: InvitationId, zone: Time -> int)
    requires id in g.db.invitations && g.db.invitations[id].resident == resident && g.db.invitations[id].estate == estate
    ensures var g' := Step(g, Withdraw(resident, estate, id), zone);
      IsWithdrawn(g'.db, id, estate) && VisitsOf(g'.db, id) == VisitsOf(g.db, id) && EntriesUnderWay(g', id) == EntriesUnderWay(g, id)
  {
  }

  // ---- Entering, extending and looking, against the scan ----

  /** In every run, why an entry is refused is what a scan says of the pass. */
  lemma RefusalsFollowTheScan(actions: seq<Action>, zone: Time -> int, estate: EstateId, id: InvitationId)
    ensures var db := Run(actions, zone).db;
      var (after, r) := RecordEntry(db, estate, id);
      var said := Verdict(Lookup(db, Some(id)), estate, db.clock);
      && (r == Err(NotFound) <==> said == UNKNOWN)
      && (said == WITHDRAWN_PASS || said == PAST ==> r == Err(Forbidden))
      && (r == Err(Forbidden) ==> said == WITHDRAWN_PASS || db.invitations[id].validUntil < db.clock)
      && (r.Err? ==> after == db && r.error in {NotFound, Forbidden, Conflict})
      && (said == ALREADY_USED ==> r in {Err(Forbidden), Err(Conflict)})
  {
    RunSettles(actions, zone);
    hide Run, HasOpenVisit;
  }

  /**
   * In every run, an extension that succeeds gives the pass the end it names, the minutes asked after its old end or after
   * now; and then a scan passes it and the gate lets it in unless somebody is inside on it.
   */
  lemma ExtendedMayEnter(actions: seq<Action>, zone: Time -> int, resident: ResidentId, estate: EstateId, id: InvitationId,
                         minutes: int, rules: Rules)
    requires Extend(Run(actions, zone).db, resident, estate, id, minutes, rules, zone).1.Ok?
    ensures var db := Run(actions, zone).db;
      var (after, r) := Extend(db, resident, estate, id, minutes, rules, zone);
      && id in db.invitations && db.invitations[id].resident == resident && db.invitations[id].estate == estate
      && after.invitations.Keys == db.invitations.Keys && (after.visits, after.clock) == (db.visits, db.clock)
      && (forall other :: other in db.invitations && other != id ==> after.invitations[other] == db.invitations[other])
      && var before, row := db.invitations[id], after.invitations[id];
         && row == before.(validUntil := r.value, status := if before.status == EXPIRED then ACTIVE else before.status)
         && r.value == (if before.validUntil < db.clock then db.clock else before.validUntil) + minutes * 60_000
         && Verdict(Some(row), estate, db.clock) == (if row.validFrom > db.clock then NOT_YET_VALID else VALID)
         && (RecordEntry(after, estate, id).1.Ok? <==> !HasOpenVisit(db.visits, id))
  {
    RunSettles(actions, zone);
    hide Run, HasOpenVisit, InQuietHours;
  }

  /**
   * Why an extension is refused: it is not the resident's pass, it is used, the minutes do not fit, or the estate or the pass
   * forbids it.
   */
  lemma ExtensionRefusals(db: Ledger, resident: ResidentId, estate: EstateId, id: InvitationId, minutes: int, rules: Rules, zone: Time -> int)
    requires Extend(db, resident, estate, id, minutes, rules, zone).1.Err?
    ensures var (after, r) := Extend(db, resident, estate, id, minutes, rules, zone);
      && after == db
      && (r.error == NotFound <==> !(id in db.invitations && db.invitations[id].resident == resident && db.invitations[id].estate == estate))
      && (r.error != NotFound ==>
            var row := db.invitations[id];
            exists code :: Refuses(code, row, rules, minutes, db.clock, zone)
              && (forall other :: Rank(other) < Rank(code) ==> !Refuses(other, row, rules, minutes, db.clock, zone))
              && r.error == if code == AlreadyUsed then Conflict
                            else if code in {InvalidAmount, TooLongRequest, TooLongTotal} then BadRequest else Forbidden)
  {
    if id in db.invitations && db.invitations[id].resident == resident && db.invitations[id].estate == estate {
      var row := db.invitations[id];
      DecisionIsFirstRefusal(row, rules, minutes, db.clock, zone);
      var d := EvaluateExtension(row, rules, minutes, db.clock, zone);
      assert d.Granted? ==> !Refuses(RevokedPass, row, rules, minutes, db.clock, zone);
      assert d.Denied?;
      assert Refuses(d.code, row, rules, minutes, db.clock, zone);
      hide Refuses, EvaluateExtension;
    }
  }

  /** In every run, what the visitor's page shows is what a scan says; a pass left EXPIRED with its time running shows EXPIRED. */
  lemma PageFollowsTheScan(actions: seq<Action>, zone: Time -> int, id: InvitationId)
    ensures var db := Run(actions, zone).db;
      var (after, r) := OpenLink(db, Some(id));
      && (r == Err(NotFound) <==> id !in db.invitations)
      && (id in db.invitations ==>
            var row := db.invitations[id];
            var said := Verdict(Some(row), row.estate, db.clock);
            && (r == Err(Gone) <==> said == WITHDRAWN_PASS)
            && (r == Ok(USED) <==> said == ALREADY_USED)
            && (r == Ok(EXPIRED) <==> said == PAST || (MayPass(said) && row.status == EXPIRED))
            && (r == Ok(ACTIVE) <==> MayPass(said) && row.status == ACTIVE)
            && (r.Ok? ==> id in after.invitations && after.invitations[id] == row.(status := r.value)))
  {
    RunSettles(actions, zone);
    hide Run;
  }

  // ---- Creating ----

  /** A new pass is its resident's, ACTIVE, for the times asked; a courier's admits once whatever was asked. */
  lemma CreationSucceedsExactly(db: Ledger, id: InvitationId, draft: Draft)
    ensures var (after, r) := CreateInvitation(db, id, draft);
      && (r.Ok? <==> id !in db.invitations && draft.validFrom < draft.validUntil
                     && forall other :: other in db.invitations ==> db.invitations[other].tokenHash != draft.tokenHash)
      && (r.Err? ==> after == db)
      && (r.Ok? ==>
            && id in after.invitations && after.history == db.history + [InvitationEvent(id, CREATED)]
            && Revoke(after, draft.resident, draft.estate, id).1.Ok?
            && var row := after.invitations[id];
               && (row.status, row.validFrom, row.validUntil) == (ACTIVE, draft.validFrom, draft.validUntil)
               && (row.tokenHash, row.codeHash) == (draft.tokenHash, draft.codeHash)
               && (row.policy == MULTI_ENTRY <==> draft.visitor != Some(COURIER) && draft.policy == Some(MULTI_ENTRY)))
  {
  }

  lemma {:induction false} PolicyStays(earlier: seq<Action>, later: seq<Action>, zone: Time -> int, id: InvitationId)
    requires id in Run(earlier, zone).db.invitations
    ensures id in Run(earlier + later, zone).db.invitations
    ensures Run(earlier + later, zone).db.invitations[id].policy == Run(earlier, zone).db.invitations[id].policy
  {
    hide Run, Step, Inv;
    if later == [] {
      assert earlier + later == earlier;
    } else {
      var shorter, a := later[..|later| - 1], later[|later| - 1];
      PolicyStays(earlier, shorter, zone, id);
      RunKeepsInv(earlier + shorter, zone);
      StepEvolvesRows(Run(earlier + shorter, zone), a, zone);
      RunAppends(earlier + shorter, a, zone);
      assert earlier + later == earlier + shorter + [a];
    }
  }

  /** Whatever entry policy the resident asks for, a courier gets in at most once. */
  lemma CourierEntersOnce(earlier: seq<Action>, later: seq<Action>, zone: Time -> int, id: InvitationId, draft: Draft)
    requires draft.visitor == Some(COURIER) && CreateInvitation(Run(earlier, zone).db, id, draft).1.Ok?
    ensures |VisitsOf(Run(earlier + [Create(id, draft)] + later, zone).db, id)| <= 1
  {
    RunAppends(earlier, Create(id, draft), zone);
    CreationSucceedsExactly(Run(earlier, zone).db, id, draft);
    hide Run, VisitsOf;
    PolicyStays(earlier + [Create(id, draft)], later, zone, id);
    OneTimeAdmitsOnce(earlier + [Create(id, draft)] + later, zone, id);
  }
}
