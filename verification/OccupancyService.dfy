/** Administration of residents and the invite flow, changing the tables in place. */
module OccupancyService {
  import opened Domain
  import O = Occupancy
  import opened OccupancyRuns
  import opened OccupancyInvites

  class ResidentOffice {
    var apartments: map<O.ApartmentId, O.Apartment>
    var residents: map<ResidentId, O.Resident>
    var emails: set<O.Email>
    var invites: map<O.InviteId, O.Invite>
    var completions: seq<O.Completion>

    function State(): O.Register
      reads this
    {
      O.Register(apartments, residents, emails, invites, completions)
    }

    /** The flags are right, and every invite that became an account became one and is marked used. */
    ghost predicate Valid()
      reads this
    {
      Inv(O.Office(State(), map[])) && FlagsRight(State()) && AllUsed(State())
    }

    constructor ()
      ensures Valid() && State() == O.EMPTY_REGISTER
    {
      apartments, residents, emails, invites, completions := map[], map[], {}, map[], [];
    }

    lemma StepKeepsValid(a: O.Action)
      requires Valid() && Respects(O.Office(State(), map[]), a)
      ensures var next := O.Step(O.Office(State(), map[]), a);
        Inv(next) && FlagsRight(next.register) && AllUsed(next.register)
    {
      StepKeepsInv(O.Office(State(), map[]), a);
      StepKeepsFlags(O.Office(State(), map[]), a);
      WholeStepsKeepAllUsed(State(), a);
      hide O.Step, Inv, FlagsMatch, AllUsed;
    }

    method CreateResident(estate: EstateId, a: O.ApartmentId, email: O.Email, id: ResidentId) returns (r: Result<ResidentId>)
      requires Valid()
      modifies this
      ensures Valid() && (State(), r) == O.AddResident(old(State()), estate, a, email, id)
    {
      StepKeepsValid(O.NewResident(estate, a, email, id));
      hide Inv, AllUsed, FlagsMatch;
      if a !in apartments || apartments[a].estate != estate { return Err(NotFound); }
      if email in emails || id in residents { return Err(Internal); }
      emails := emails + {email};
      residents := residents[id := O.Resident(estate, a, email, O.Live)];
      apartments := apartments[a := apartments[a].(occupied := true)];
      return Ok(id);
    }

    /** Counts the apartment's residents that are left and rewrites its flag. */
    method RecomputeApartmentOccupancy(a: O.ApartmentId)
      requires a in apartments
      modifies this`apartments
      ensures State() == O.Recomputed(old(State()), a)
    {
      var remaining := |set x | x in residents && residents[x].apartment == a && residents[x].status != O.Removed|;
      assert remaining == |O.Assigned(residents, a)| by {
        assert (set x | x in residents && residents[x].apartment == a && residents[x].status != O.Removed) == O.Assigned(residents, a);
      }
      apartments := apartments[a := apartments[a].(occupied := remaining > 0)];
    }

    method UpdateResident(estate: EstateId, id: ResidentId, to: Option<O.ApartmentId>) returns (r: Result<ResidentId>)
      requires Valid()
      modifies this
      ensures Valid() && (State(), r) == O.MoveResident(old(State()), estate, id, to)
    {
      StepKeepsValid(O.Move(estate, id, to));
      assert id in residents ==> residents[id].apartment in apartments;
      hide Inv, AllUsed, FlagsMatch, O.Assigned;
      if id !in residents || residents[id].estate != estate { return Err(NotFound); }
      var was := residents[id].apartment;
      var now := was;
      if to.Some? && to.value != was {
        if to.value !in apartments || apartments[to.value].estate != estate { return Err(NotFound); }
        now := to.value;
      }
      residents := residents[id := residents[id].(apartment := now)];
      if now != was {
        RecomputeApartmentOccupancy(was);
        RecomputeApartmentOccupancy(now);
      } else {
        assert residents == old(residents);
      }
      return Ok(id);
    }

    method RemoveResident(estate: EstateId, id: ResidentId, passwordOk: bool) returns (r: Result<ResidentId>)
      requires Valid()
      modifies this
      ensures Valid() && (State(), r) == O.RemoveResident(old(State()), estate, id, passwordOk)
    {
      StepKeepsValid(O.Remove(estate, id, passwordOk));
      assert id in residents ==> residents[id].apartment in apartments;
      hide Inv, AllUsed, FlagsMatch, O.Assigned;
      if id !in residents || residents[id].estate != estate { return Err(NotFound); }
      if !passwordOk { return Err(Forbidden); }
      residents := residents[id := residents[id].(status := O.Removed)];
      RecomputeApartmentOccupancy(residents[id].apartment);
      return Ok(id);
    }

    /** Only reinstating someone removed from an apartment that is now empty can put its flag wrong. */
    method UpdateResidentStatus(estate: EstateId, id: ResidentId, suspend: bool) returns (r: Result<ResidentId>)
      requires Valid()
      modifies this`residents
      ensures (State(), r) == O.SetResidentStatus(old(State()), estate, id, suspend)
      ensures Valid() <==> !Misleads(old(State()), estate, id)
    {
      StatusChangeExactly(State(), estate, id, suspend);
      StepKeepsInv(O.Office(State(), map[]), O.SetStatus(estate, id, suspend));
      WholeStepsKeepAllUsed(State(), O.SetStatus(estate, id, suspend));
      assert id in residents ==> residents[id].apartment in apartments;
      hide Inv, AllUsed, FlagsMatch;
      if id !in residents || residents[id].estate != estate { return Err(NotFound); }
      residents := residents[id := residents[id].(status := if suspend then O.Suspended else O.Live)];
      return Ok(id);
    }

    method CreateInvite(estate: EstateId, a: O.ApartmentId, email: O.Email, id: O.InviteId, tokenHash: string, now: Time)
      returns (r: Result<O.InviteId>)
      requires Valid()
      modifies this`invites
      ensures Valid() && (State(), r) == O.CreateInvite(old(State()), estate, a, email, id, tokenHash, now)
    {
      StepKeepsValid(O.NewInvite(estate, a, email, id, tokenHash, now));
      hide Inv, AllUsed, FlagsMatch;
      if a !in apartments || apartments[a].estate != estate { return Err(NotFound); }
      if apartments[a].occupied { return Err(Conflict); }
      if email in emails { return Err(Conflict); }
      if id in invites || O.LinkTaken(invites, tokenHash) { return Err(Internal); }
      invites := O.Superseded(invites, a);
      invites := invites[id := O.Invite(estate, a, email, tokenHash, O.Open, now + O.INVITE_TTL_MS)];
      return Ok(id);
    }

    method ResendInvite(estate: EstateId, id: O.InviteId, tokenHash: string, now: Time) returns (r: Result<O.InviteId>)
      requires Valid()
      modifies this`invites
      ensures Valid() && (State(), r) == O.ResendInvite(old(State()), estate, id, tokenHash, now)
    {
      StepKeepsValid(O.Resend(estate, id, tokenHash, now));
      hide Inv, AllUsed, FlagsMatch;
      if id !in invites || invites[id].estate != estate { return Err(NotFound); }
      if invites[id].status == O.Consumed { return Err(Conflict); }
      if O.LinkTaken(invites, tokenHash) { return Err(Internal); }
      invites := invites[id := invites[id].(tokenHash := tokenHash, expiresAt := now + O.INVITE_TTL_MS, status := O.Open)];
      return Ok(id);
    }

    method CancelInvite(estate: EstateId, id: O.InviteId) returns (r: Result<O.InviteId>)
      requires Valid()
      modifies this`invites
      ensures Valid() && (State(), r) == O.CancelInvite(old(State()), estate, id)
    {
      StepKeepsValid(O.Cancel(estate, id));
      hide Inv, AllUsed, FlagsMatch;
      if id !in invites || invites[id].estate != estate { return Err(NotFound); }
      if invites[id].status == O.Consumed { return Err(Conflict); }
      if invites[id].status == O.Cancelled { return Err(Conflict); }
      invites := invites[id := invites[id].(status := O.Cancelled)];
      return Ok(id);
    }

    method CompleteInvite(found: Option<O.InviteId>, now: Time, id: ResidentId) returns (r: Result<ResidentId>)
      requires Valid()
      modifies this
      ensures Valid() && (State(), r) == O.CompleteInvite(old(State()), found, now, id)
    {
      StepKeepsValid(O.Complete(found, now, id));
      hide Inv, AllUsed, FlagsMatch;
      if found.None? || found.value !in invites { return Err(NotFound); }
      var invite := invites[found.value];
      if invite.status == O.Consumed { return Err(Gone); }
      if invite.status != O.Open || invite.expiresAt < now { return Err(Gone); }
      if invite.apartment !in apartments { return Err(NotFound); }
      if apartments[invite.apartment].occupied { return Err(Conflict); }
      if invite.email in emails || id in residents { return Err(Internal); }
      emails := emails + {invite.email};
      residents := residents[id := O.Resident(invite.estate, invite.apartment, invite.email, O.Live)];
      apartments := apartments[invite.apartment := apartments[invite.apartment].(occupied := true)];
      invites := invites[found.value := invite.(status := O.Consumed)];
      completions := completions + [O.Completion(found.value, id)];
      return Ok(id);
    }
  }
}
