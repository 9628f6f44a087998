/** The services themselves, changing the tables in place. */
module GateService {
  import opened Domain
  import opened ExtensionRules
  import L = GateLedger
  import M = GateMachine
  import opened GateOneTime
  import opened GateBooks
  import opened ExpirySweep

  class GateDatabase {
    var clock: Time
    var invitations: map<InvitationId, Invitation>
    var visits: seq<Visit>
    var gateEvents: seq<GateEvent>
    var history: seq<InvitationEvent>
    /** The sweep's own flag, and the rows it has told residents about. */
    var sweeping: bool
    var told: seq<InvitationId>

    function Rows(): L.Ledger
      reads this
    {
      L.Ledger(clock, invitations, visits, gateEvents, history)
    }

    /** ONE_TIME passes admit once and the books balance. */
    ghost predicate Valid()
      reads this
    {
      Inv(M.Gate(Rows(), map[])) && Books(Rows())
    }

    constructor ()
      ensures Rows() == L.EMPTY_LEDGER && Valid() && !sweeping && told == []
    {
      clock, invitations, visits, gateEvents, history := 0, map[], [], [], [];
      sweeping, told := false, [];
      new;
      RunKeepsInv([], t => 0);
      RunKeepsBooks([], t => 0);
    }

    /** Every operation is one step of the gate machine, so it keeps what all steps keep. */
    lemma StepKeepsValid(a: M.Action, zone: Time -> int, after: L.Ledger)
      requires Valid() && M.Step(M.Gate(Rows(), map[]), a, zone) == M.Gate(after, map[])
      ensures Inv(M.Gate(after, map[])) && Books(after)
    {
      StepKeepsInv(M.Gate(Rows(), map[]), a, zone);
      StepKeepsBooks(M.Gate(Rows(), map[]), a, zone);
      hide Inv, Books, M.Step;
    }

    method Wait(elapsed: nat)
      requires Valid()
      modifies this`clock
      ensures Valid() && Rows() == old(Rows()).(clock := old(clock) + elapsed)
    {
      StepKeepsValid(M.Tick(elapsed), t => 0, Rows().(clock := clock + elapsed));
      hide Inv, Books, M.Step;
      clock := clock + elapsed;
    }

    method CreateInvitation(id: InvitationId, draft: L.Draft) returns (r: Result<InvitationId>)
      requires Valid()
      modifies this
      ensures Valid() && (Rows(), r) == L.CreateInvitation(old(Rows()), id, draft)
    {
      StepKeepsValid(M.Create(id, draft), t => 0, L.CreateInvitation(Rows(), id, draft).0);
      hide Inv, Books, M.Step;
      if id in invitations || L.TokenTaken(invitations, draft.tokenHash) { return Err(Conflict); }
      if draft.validUntil <= draft.validFrom { return Err(BadRequest); }
      var policy := ONE_TIME;
      if draft.visitor != Some(COURIER) && draft.policy.Some? {
        policy := draft.policy.value;
      }
      invitations := invitations[id := Invitation(draft.estate, draft.resident, draft.tokenHash, draft.codeHash,
                                                  draft.validFrom, draft.validUntil, ACTIVE, policy)];
      history := history + [InvitationEvent(id, CREATED)];
      return Ok(id);
    }

    method Revoke(resident: ResidentId, estate: EstateId, id: InvitationId) returns (r: Result<()>)
      requires Valid()
      modifies this
      ensures Valid() && (Rows(), r) == L.Revoke(old(Rows()), resident, estate, id)
    {
      StepKeepsValid(M.Withdraw(resident, estate, id), t => 0, L.Revoke(Rows(), resident, estate, id).0);
      hide Inv, Books, M.Step;
      if id !in invitations || invitations[id].resident != resident || invitations[id].estate != estate {
        return Err(NotFound);
      }
      invitations := invitations[id := invitations[id].(status := REVOKED)];
      history := history + [InvitationEvent(id, WITHDRAWN)];
      return Ok(());
    }

    method RecordEntry(estate: EstateId, id: InvitationId) returns (r: Result<VisitId>)
      requires Valid()
      modifies this
      ensures Valid() && (Rows(), r) == L.RecordEntry(old(Rows()), estate, id)
    {
      StepKeepsValid(M.Enter(estate, id), t => 0, L.RecordEntry(Rows(), estate, id).0);
      hide Inv, Books, M.Step;
      if id !in invitations || invitations[id].estate != estate { return Err(NotFound); }
      var invitation := invitations[id];
      if invitation.status == REVOKED || invitation.status == CANCELLED { return Err(Forbidden); }
      if invitation.validUntil < clock { return Err(Forbidden); }
      hide L.HasOpenVisit;
      if invitation.policy == ONE_TIME {
        if invitations[id].status != ACTIVE { return Err(Conflict); }
        invitations := invitations[id := invitation.(status := USED)];
      }
      if L.HasOpenVisit(visits, id) {
        // Throwing inside the transaction undoes the compare-and-swap.
        invitations := invitations[id := invitation];
        assert invitations == old(invitations);
        return Err(Conflict);
      }
      var visit := |visits|;
      visits := visits + [Visit(id, Some(clock), None)];
      gateEvents := gateEvents + [GateEvent(visit, ENTRY)];
      history := history + [InvitationEvent(id, ENTERED)];
      assert invitation.policy != ONE_TIME ==> invitations == old(invitations)[id := invitation];
      return Ok(visit);
    }

    method RecordExit(estate: EstateId, visit: VisitId) returns (r: Result<VisitId>)
      requires Valid()
      modifies this
      ensures Valid() && (Rows(), r) == L.RecordExit(old(Rows()), estate, visit)
    {
      StepKeepsValid(M.Exit(estate, visit), t => 0, L.RecordExit(Rows(), estate, visit).0);
      hide Inv, Books, M.Step;
      if visit >= |visits| { return Err(NotFound); }
      var existing := visits[visit];
      if existing.invitation !in invitations || invitations[existing.invitation].estate != estate { return Err(NotFound); }
      if existing.enteredAt.None? { return Err(Forbidden); }
      if existing.exitedAt.Some? { return Err(Conflict); }
      visits := visits[visit := existing.(exitedAt := Some(clock))];
      gateEvents := gateEvents + [GateEvent(visit, EXIT)];
      history := history + [InvitationEvent(existing.invitation, EXITED)];
      return Ok(visit);
    }

    function ListCurrentlyInside(estate: EstateId): (inside: seq<VisitId>)
      requires VisitsKnown(Rows())
      reads this
      ensures forall v :: v in inside <==> 0 <= v < |visits| && L.IsOpen(visits[v]) && invitations[visits[v].invitation].estate == estate
      ensures forall i, j :: 0 <= i < j < |inside| ==> inside[j] < inside[i]
    {
      InsideListIsExact(visits, Owners(Rows()), estate);
      CurrentlyInside(visits, Owners(Rows()), estate)
    }

    method Verify(estate: EstateId, found: Option<InvitationId>) returns (outcome: L.Outcome)
      requires Valid()
      modifies this
      ensures Valid() && (Rows(), outcome) == L.Verify(old(Rows()), estate, found)
    {
      StepKeepsValid(M.Scan(estate, found), t => 0, L.Verify(Rows(), estate, found).0);
      hide Inv, Books, M.Step;
      if found.None? || found.value !in invitations || invitations[found.value].estate != estate { return L.UNKNOWN; }
      var invitation := invitations[found.value];
      if invitation.status == REVOKED || invitation.status == CANCELLED {
        outcome := L.WITHDRAWN_PASS;
      } else if invitation.policy == ONE_TIME && invitation.status == USED {
        outcome := L.ALREADY_USED;
      } else if invitation.validUntil < clock {
        outcome := L.PAST;
        if invitation.status != EXPIRED {
          invitations := invitations[found.value := invitation.(status := EXPIRED)];
        } else {
          assert invitations == invitations[found.value := invitation.(status := EXPIRED)];
        }
      } else if invitation.validFrom > clock {
        outcome := L.NOT_YET_VALID;
      } else {
        outcome := L.VALID;
      }
    }

    method FindPublic(found: Option<InvitationId>) returns (r: Result<Status>)
      requires Valid()
      modifies this
      ensures Valid() && (Rows(), r) == L.OpenLink(old(Rows()), found)
    {
      StepKeepsValid(M.ViewLink(found), t => 0, L.OpenLink(Rows(), found).0);
      hide Inv, Books, M.Step;
      if found.None? || found.value !in invitations { return Err(NotFound); }
      var invitation := invitations[found.value];
      if invitation.status == REVOKED || invitation.status == CANCELLED { return Err(Gone); }
      if invitation.validUntil < clock && invitation.status != USED {
        invitation := invitation.(status := EXPIRED);
        invitations := invitations[found.value := invitation];
      }
      return Ok(invitation.status);
    }

    method Extend(resident: ResidentId, estate: EstateId, id: InvitationId, minutes: int, rules: Rules, zone: Time -> int)
      returns (r: Result<Time>)
      requires Valid()
      modifies this
      ensures Valid() && (Rows(), r) == L.Extend(old(Rows()), resident, estate, id, minutes, rules, zone)
      ensures r.Ok? <==> L.Owns(old(Rows()), resident, estate, id)
                         && forall code :: !Refuses(code, old(invitations)[id], rules, minutes, clock, zone)
    {
      L.ExtendSucceedsExactly(Rows(), resident, estate, id, minutes, rules, zone);
      StepKeepsValid(M.ExtendNow(resident, estate, id, minutes, rules), zone, L.Extend(Rows(), resident, estate, id, minutes, rules, zone).0);
      hide Inv, Books, M.Step, Refuses;
      if id !in invitations || invitations[id].resident != resident || invitations[id].estate != estate {
        return Err(NotFound);
      }
      var invitation := invitations[id];
      var decision := EvaluateExtension(invitation, rules, minutes, clock, zone);
      if decision.Denied? {
        match decision.code
        case AlreadyUsed => return Err(Conflict);
        case InvalidAmount => return Err(BadRequest);
        case TooLongRequest => return Err(BadRequest);
        case TooLongTotal => return Err(BadRequest);
        case _ => return Err(Forbidden);
      }
      var current := invitations[id];
      if current.validUntil != invitation.validUntil || current.status == REVOKED || current.status == CANCELLED {
        return Err(Conflict);
      }
      var updated := current.(validUntil := decision.newValidUntil);
      if invitation.status == EXPIRED {
        updated := updated.(status := ACTIVE);
      }
      invitations := invitations[id := updated];
      return Ok(decision.newValidUntil);
    }

    /** The sweep's loop: how many rows its own writes flipped, or that the database threw. */
    method SweepBatch(recent: seq<InvitationId>, at: Time, others: Others, failure: Failure) returns (flips: Option<nat>)
      modifies this`invitations, this`told
      ensures var seen, done := old(invitations), WritesDone(recent, failure);
        && told == old(told) + Flipped(seen, recent, at, others, done)
        && (flips.None? <==> done < |recent|) && (flips.Some? ==> flips.value == |Flipped(seen, recent, at, others, done)|)
        && invitations == TableLeft(seen, recent, at, others, done)
    {
      ghost var rows := invitations;
      var expired := 0;
      WritesStart(rows, recent, at, others);
      hide AfterWrites, Flipped;
      for i := 0 to |recent|
        invariant failure.AtWrite? ==> i <= failure.k
        invariant told == old(told) + Flipped(rows, recent, at, others, i)
        invariant expired == |Flipped(rows, recent, at, others, i)|
        invariant invitations == AfterWrites(rows, recent, at, others, i)
      {
        WritesStep(rows, recent, at, others, i);
        invitations := others(i)(invitations);
        assert invitations == Before(rows, recent, at, others, i);
        hide Before;
        if failure.AtWrite? && i == failure.k { return None; }
        var id := recent[i];
        if id in invitations && L.Overdue(invitations[id], at) {
          invitations := invitations[id := invitations[id].(status := EXPIRED)];
          expired := expired + 1;
          told := told + [id];
        }
      }
      return Some(expired);
    }

    /**
     * One sweep, with other requests changing the table between the quiet update and the query, and before each of the
     * sweep's own writes, and with the database throwing at some point or never.
     */
    method Sweep(at: Time, gap: Rows -> Rows, scan: seq<InvitationId>, others: Others, failure: Failure) returns (expired: nat)
      requires Scans(scan, gap(L.ExpireAll(invitations, at - NOTIFY_WITHIN_MS)))
      modifies this`invitations, this`sweeping, this`told
      ensures sweeping == old(sweeping)
      ensures old(sweeping) || failure.AtQuiet? ==> expired == 0 && invitations == old(invitations) && told == old(told)
      ensures !old(sweeping) && !failure.AtQuiet? ==>
        var seen := gap(L.ExpireAll(old(invitations), at - NOTIFY_WITHIN_MS));
        var batch := if failure.AtQuery? then [] else Selected(scan, seen, at);
        var done := WritesDone(batch, failure);
        var flipped := Flipped(seen, batch, at, others, done);
        && told == old(told) + flipped
        && expired == (if failure.AtQuery? || done < |batch| then 0
                       else |OverdueSet(old(invitations), at - NOTIFY_WITHIN_MS)| + |flipped|)
        && invitations == TableLeft(seen, batch, at, others, done)
    {
      hide L.ExpireAll, OverdueIn, TakeBatch, OverdueSet, Scans;
      if sweeping || failure.AtQuiet? { return 0; }
      sweeping := true;
      var quiet := |OverdueSet(invitations, at - NOTIFY_WITHIN_MS)|;
      invitations := gap(L.ExpireAll(invitations, at - NOTIFY_WITHIN_MS));
      if failure.AtQuery? {
        sweeping := false;
        return 0;
      }
      hide AfterWrites, Flipped, Before;
      var flips := SweepBatch(TakeBatch(OverdueIn(scan, invitations, at)), at, others, failure);
      sweeping := false;
      return if flips.None? then 0 else quiet + flips.value;
    }
  }
}
