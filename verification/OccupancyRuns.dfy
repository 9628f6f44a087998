/** The apartment flag against the residents it summarises, and what an invite can bring about. */
module OccupancyRuns {
  import opened Domain
  import opened Occupancy

  // ---- The flag ----

  /** OCCUPIED exactly when someone who is not removed is assigned. */
  predicate FlagsMatch(apartments: map<ApartmentId, Apartment>, residents: map<ResidentId, Resident>) {
    forall a :: a in apartments ==> (apartments[a].occupied <==> Assigned(residents, a) != {})
  }

  predicate FlagsRight(r: Register) {
    FlagsMatch(r.apartments, r.residents)
  }

  /** Residents and invites name apartments that exist, and every resident's address is taken. */
  predicate Housed(r: Register) {
    && (forall x :: x in r.residents ==> r.residents[x].apartment in r.apartments && r.residents[x].email in r.emails)
    && (forall i :: i in r.invites ==> r.invites[i].apartment in r.apartments)
  }

  /** Reinstating someone removed into an apartment marked empty is the one thing the flag does not follow. */
  predicate Misleads(r: Register, estate: EstateId, id: ResidentId) {
    && KnownResident(r, estate, id) && r.residents[id].status == Removed
    && r.residents[id].apartment in r.apartments && !r.apartments[r.residents[id].apartment].occupied
  }

  lemma AssignedAfter(residents: map<ResidentId, Resident>, x: ResidentId, row: Resident, a: ApartmentId)
    ensures Assigned(residents[x := row], a) == if LivesIn(row, a) then Assigned(residents, a) + {x} else Assigned(residents, a) - {x}
  {
  }

  /** Nobody's assignment changes but that of the resident whose row is rewritten, between these apartments. */
  lemma AssignedElsewhere(residents: map<ResidentId, Resident>, x: ResidentId, row: Resident, a: ApartmentId)
    requires row.apartment != a && (x in residents ==> residents[x].apartment != a)
    ensures Assigned(residents[x := row], a) == Assigned(residents, a)
  {
  }

  lemma ArrivalKeepsFlags(apartments: map<ApartmentId, Apartment>, residents: map<ResidentId, Resident>, x: ResidentId, row: Resident)
    requires FlagsMatch(apartments, residents) && x !in residents && row.status != Removed
    ensures FlagsMatch(Flagged(apartments, row.apartment, true), residents[x := row])
  {
    AssignedAfter(residents, x, row, row.apartment);
    forall a | a != row.apartment
      ensures Assigned(residents[x := row], a) == Assigned(residents, a)
    {
      AssignedElsewhere(residents, x, row, a);
    }
    hide Assigned;
  }

  lemma AddResidentKeepsFlags(r: Register, estate: EstateId, a: ApartmentId, email: Email, id: ResidentId)
    requires FlagsRight(r)
    ensures FlagsRight(AddResident(r, estate, a, email, id).0)
  {
    if AddResident(r, estate, a, email, id).1.Ok? {
      ArrivalKeepsFlags(r.apartments, r.residents, id, Resident(estate, a, email, Live));
    }
  }

  lemma MoveKeepsFlags(r: Register, estate: EstateId, id: ResidentId, to: Option<ApartmentId>)
    requires FlagsRight(r)
    ensures FlagsRight(MoveResident(r, estate, id, to).0)
  {
    if KnownResident(r, estate, id) && to.Some? {
      var from, row := r.residents[id].apartment, r.residents[id].(apartment := to.value);
      forall b | b != from && b != to.value
        ensures Assigned(r.residents[id := row], b) == Assigned(r.residents, b)
      {
        AssignedElsewhere(r.residents, id, row, b);
      }
      hide Assigned;
    }
  }

  lemma RemoveKeepsFlags(r: Register, estate: EstateId, id: ResidentId, passwordOk: bool)
    requires FlagsRight(r)
    ensures FlagsRight(RemoveResident(r, estate, id, passwordOk).0)
  {
    if KnownResident(r, estate, id) {
      var row := r.residents[id].(status := Removed);
      forall b | b != row.apartment
        ensures Assigned(r.residents[id := row], b) == Assigned(r.residents, b)
      {
        AssignedElsewhere(r.residents, id, row, b);
      }
      hide Assigned;
    }
  }

  /** A status change keeps the flags right unless it brings back someone removed from an apartment now empty. */
  lemma StatusChangeExactly(r: Register, estate: EstateId, id: ResidentId, suspend: bool)
    requires FlagsRight(r) && (id in r.residents ==> r.residents[id].apartment in r.apartments)
    ensures FlagsRight(SetResidentStatus(r, estate, id, suspend).0) <==> !Misleads(r, estate, id)
  {
    if KnownResident(r, estate, id) {
      var row := r.residents[id].(status := if suspend then Suspended else Live);
      var home := row.apartment;
      forall b | b != home
        ensures Assigned(r.residents[id := row], b) == Assigned(r.residents, b)
      {
        AssignedElsewhere(r.residents, id, row, b);
      }
      AssignedAfter(r.residents, id, row, home);
      assert LivesIn(r.residents[id], home) ==> id in Assigned(r.residents, home);
      hide Assigned;
      assert id in Assigned(r.residents[id := row], home);
    }
  }

  lemma CommitKeepsFlags(r: Register, t: Ticket, id: ResidentId)
    requires FlagsRight(r) && t.invite in r.invites
    ensures FlagsRight(CommitCompletion(r, t, id).0)
  {
    if CommitCompletion(r, t, id).1.Ok? {
      ArrivalKeepsFlags(r.apartments, r.residents, id, Resident(t.row.estate, t.row.apartment, t.row.email, Live));
    }
  }

  // ---- Invites and the accounts they became ----

  /** A request under way still speaks of its invite's address and apartment. */
  predicate PendingMatches(p: Pending, r: Register) {
    match p
    case Completing(t) =>
      t.invite in r.invites && t.row.email == r.invites[t.invite].email && t.row.apartment == r.invites[t.invite].apartment
    case Resending(i) => i in r.invites
    case Cancelling(i) => i in r.invites
    case Inviting(_, a, _, _) => a in r.apartments
  }

  /** Each completion has its own invite, whose address is now an account's. */
  predicate CompletionsApart(r: Register) {
    && (forall k :: 0 <= k < |r.completions| ==>
          r.completions[k].invite in r.invites && r.invites[r.completions[k].invite].email in r.emails)
    && (forall j, k :: 0 <= j < k < |r.completions| ==> r.completions[j].invite != r.completions[k].invite)
  }

  predicate Inv(o: Office) {
    Housed(o.register) && (forall k :: k in o.pending ==> PendingMatches(o.pending[k], o.register)) && CompletionsApart(o.register)
  }

  /** Only invites change, and none its address or apartment. */
  predicate InvitesGoOn(before: Register, after: Register) {
    && (after.apartments, after.residents, after.emails, after.completions)
       == (before.apartments, before.residents, before.emails, before.completions)
    && (forall i :: i in before.invites ==>
          i in after.invites && after.invites[i].email == before.invites[i].email
          && after.invites[i].apartment == before.invites[i].apartment)
    && (forall i :: i in after.invites && i !in before.invites ==> after.invites[i].apartment in after.apartments)
  }

  lemma WritesGoOn(r: Register, estate: EstateId, a: ApartmentId, email: Email, id: InviteId, tokenHash: string, now: Time)
    requires a in r.apartments
    ensures InvitesGoOn(r, r.(invites := Superseded(r.invites, a)))
    ensures InvitesGoOn(r, WriteInvite(r, estate, a, email, id, tokenHash, now).0)
    ensures InvitesGoOn(r, CreateInvite(r, estate, a, email, id, tokenHash, now).0)
  {
    hide LinkTaken;
  }

  lemma UpdatesGoOn(r: Register, id: InviteId, tokenHash: string, now: Time)
    requires id in r.invites
    ensures InvitesGoOn(r, WriteResend(r, id, tokenHash, now).0) && InvitesGoOn(r, WriteCancel(r, id))
  {
    hide LinkTaken;
  }

  lemma GoingOnKeepsInv(o: Office, after: Office)
    requires Inv(o) && InvitesGoOn(o.register, after.register)
    requires forall k :: k in after.pending ==> PendingMatches(after.pending[k], o.register)
    ensures Inv(after)
  {
  }

  lemma ResidentStepKeepsInv(o: Office, a: Action)
    requires Inv(o) && ForResidents(a)
    ensures Inv(Step(o, a))
  {
    hide Assigned;
  }

  lemma StartKeepsInv(o: Office, a: Action)
    requires Inv(o) && Starts(a)
    ensures Inv(Step(o, a))
  {
  }

  /** The account's address makes a second completion of the same invite fail, however stale the check behind it. */
  lemma CommitKeepsInv(o: Office, t: Ticket, id: ResidentId)
    requires Inv(o) && PendingMatches(Completing(t), o.register)
    ensures Inv(o.(register := CommitCompletion(o.register, t, id).0))
  {
  }

  lemma FewerPendingKeepsInv(o: Office, pending: map<RequestId, Pending>)
    requires Inv(o) && forall k :: k in pending ==> k in o.pending && pending[k] == o.pending[k]
    ensures Inv(o.(pending := pending))
  {
  }

  lemma FinishKeepsInv(o: Office, a: Action)
    requires Inv(o) && Finishes(a) && a.request in o.pending
    ensures Inv(Finish(o, a))
  {
    var r, p := o.register, o.pending[a.request];
    assert PendingMatches(p, r);
    if p.Completing? && a.FinishCompletion? {
      CommitKeepsInv(o, p.ticket, a.resident);
      FewerPendingKeepsInv(o.(register := CommitCompletion(r, p.ticket, a.resident).0), o.pending - {a.request});
    } else {
      if p.Inviting? && (a.FinishInvite? || a.Supersede?) {
        if a.FinishInvite? {
          WritesGoOn(r, p.estate, p.apartment, p.email, a.invite, a.tokenHash, a.now);
        } else {
          WritesGoOn(r, p.estate, p.apartment, p.email, 0, "", 0);
        }
      } else if p.Resending? && a.FinishResend? {
        UpdatesGoOn(r, p.invite, a.tokenHash, a.now);
      } else if p.Cancelling? && a.FinishCancel? {
        UpdatesGoOn(r, p.invite, "", 0);
      }
      hide Inv, InvitesGoOn, WriteInvite, WriteResend, WriteCancel, Superseded, CommitCompletion;
      if Finish(o, a) != o { GoingOnKeepsInv(o, Finish(o, a)); }
    }
  }

  lemma RegisterGoesOn(o: Office, after: Register)
    requires Inv(o) && InvitesGoOn(o.register, after)
    ensures Inv(o.(register := after))
  {
    GoingOnKeepsInv(o, o.(register := after));
  }

  lemma WholeStepKeepsInv(o: Office, a: Action)
    requires Inv(o) && (a.Complete? || a.NewInvite? || a.Resend? || a.Cancel?)
    ensures Inv(Step(o, a))
  {
    var r := o.register;
    if a.Complete? {
      var checked := CheckCompletion(r, a.found, a.now);
      if checked.Ok? { CommitKeepsInv(o, checked.value, a.resident); }
    } else if a.NewInvite? {
      if a.apartment in r.apartments {
        WritesGoOn(r, a.estate, a.apartment, a.email, a.invite, a.tokenHash, a.now);
        RegisterGoesOn(o, CreateInvite(r, a.estate, a.apartment, a.email, a.invite, a.tokenHash, a.now).0);
      }
    } else if MayResend(r, a.estate, a.invite) {
      UpdatesGoOn(r, a.invite, if a.Resend? then a.tokenHash else "", if a.Resend? then a.now else 0);
      if a.Resend? { RegisterGoesOn(o, WriteResend(r, a.invite, a.tokenHash, a.now).0); } else { RegisterGoesOn(o, WriteCancel(r, a.invite)); }
    }
    hide Inv, InvitesGoOn, CreateInvite, WriteResend, WriteCancel, CommitCompletion;
    if a.NewInvite? && a.apartment !in r.apartments { RefusedInvite(r, a); }
  }

  lemma RefusedInvite(r: Register, a: Action)
    requires a.NewInvite? && a.apartment !in r.apartments
    ensures CreateInvite(r, a.estate, a.apartment, a.email, a.invite, a.tokenHash, a.now).0 == r
  {
  }

  lemma StepKeepsInv(o: Office, a: Action)
    requires Inv(o)
    ensures Inv(Step(o, a))
  {
    if ForResidents(a) {
      ResidentStepKeepsInv(o, a);
    } else if Starts(a) {
      StartKeepsInv(o, a);
    } else if Finishes(a) {
      if a.request in o.pending { FinishKeepsInv(o, a); }
    } else {
      WholeStepKeepsInv(o, a);
    }
    hide Inv, Finish;
  }

  lemma {:induction false} RunKeepsInv(actions: seq<Action>)
    ensures Inv(Run(actions))
  {
    if actions != [] {
      RunKeepsInv(actions[..|actions| - 1]);
      StepKeepsInv(Run(actions[..|actions| - 1]), actions[|actions| - 1]);
      hide Step, Inv;
    }
  }

  /**
   * In every interleaving of all the halves, an invite becomes at most one resident, however often it is resent and however
   * stale the requests behind it.
   */
  lemma EachInviteOnce(actions: seq<Action>, j: nat, k: nat)
    requires j < |Run(actions).register.completions| && k < |Run(actions).register.completions|
    requires Run(actions).register.completions[j].invite == Run(actions).register.completions[k].invite
    ensures j == k
  {
    RunKeepsInv(actions);
  }

  // ---- The flag over runs ----

  predicate Respects(o: Office, a: Action) {
    a.SetStatus? ==> !Misleads(o.register, a.estate, a.resident)
  }

  predicate AllRespect(actions: seq<Action>) {
    forall k :: 0 <= k < |actions| ==> Respects(Run(actions[..k]), actions[k])
  }

  predicate FlagsAt(actions: seq<Action>, n: nat)
    requires n <= |actions|
  {
    FlagsRight(Run(actions[..n]).register)
  }

  predicate FlagsRightThroughout(actions: seq<Action>) {
    forall n: nat :: n <= |actions| ==> FlagsAt(actions, n)
  }

  lemma ResidentStepKeepsFlags(o: Office, a: Action)
    requires Inv(o) && FlagsRight(o.register) && ForResidents(a)
    ensures FlagsRight(Step(o, a).register) <==> Respects(o, a)
  {
    var r := o.register;
    match a
    case NewApartment(estate, apartment) =>
      assert apartment !in r.apartments ==> Assigned(r.residents, apartment) == {};
      hide Assigned;
    case NewResident(estate, apartment, email, id) => AddResidentKeepsFlags(r, estate, apartment, email, id);
    case Move(estate, id, to) => MoveKeepsFlags(r, estate, id, to);
    case Remove(estate, id, ok) => RemoveKeepsFlags(r, estate, id, ok);
    case SetStatus(estate, id, suspend) => StatusChangeExactly(r, estate, id, suspend);
    case OtherAccount(_) =>
  }

  lemma StepKeepsFlags(o: Office, a: Action)
    requires Inv(o) && FlagsRight(o.register)
    ensures FlagsRight(Step(o, a).register) <==> Respects(o, a)
  {
    var r := o.register;
    if ForResidents(a) {
      ResidentStepKeepsFlags(o, a);
    } else if a.FinishCompletion? && a.request in o.pending && o.pending[a.request].Completing? {
      assert PendingMatches(o.pending[a.request], r);
      CommitKeepsFlags(r, o.pending[a.request].ticket, a.resident);
    } else if a.Complete? && CheckCompletion(r, a.found, a.now).Ok? {
      CommitKeepsFlags(r, CheckCompletion(r, a.found, a.now).value, a.resident);
    } else {
      InviteStepsLeaveHomes(o, a);
    }
    hide FlagsMatch, CommitCompletion, Inv;
  }

  lemma InviteStepsLeaveHomes(o: Office, a: Action)
    requires !ForResidents(a) && !(a.FinishCompletion? && a.request in o.pending && o.pending[a.request].Completing?)
    requires a.Complete? ==> CheckCompletion(o.register, a.found, a.now).Err?
    ensures Step(o, a).register.apartments == o.register.apartments && Step(o, a).register.residents == o.register.residents
  {
    hide LinkTaken;
  }

  lemma RespectSplits(actions: seq<Action>)
    requires actions != []
    ensures var front, a := actions[..|actions| - 1], actions[|actions| - 1];
      AllRespect(actions) <==> AllRespect(front) && Respects(Run(front), a)
  {
    hide Run, Respects;
    var front := actions[..|actions| - 1];
    forall k | 0 <= k < |front|
      ensures actions[..k] == front[..k] && actions[k] == front[k]
    {
    }
    assert actions[..|front|] == front;
  }

  lemma ThroughoutSplits(actions: seq<Action>)
    requires actions != []
    ensures FlagsRightThroughout(actions) <==> FlagsRightThroughout(actions[..|actions| - 1]) && FlagsRight(Run(actions).register)
  {
    hide Run, FlagsRight;
    var front := actions[..|actions| - 1];
    forall n: nat | n <= |front|
      ensures FlagsAt(actions, n) == FlagsAt(front, n)
    {
      assert actions[..n] == front[..n];
    }
    assert actions[..|actions|] == actions;
    assert FlagsAt(actions, |actions|) == FlagsRight(Run(actions).register);
    hide FlagsAt;
  }

  /**
   * Over every interleaving: the flags are right at every moment if and only if nobody removed is ever reinstated into an
   * apartment then marked empty.
   */
  lemma {:induction false} FlagsRightExactly(actions: seq<Action>)
    ensures FlagsRightThroughout(actions) <==> AllRespect(actions)
  {
    if actions == [] {
      assert actions[..0] == [];
      assert FlagsAt(actions, 0);
    } else {
      var front, a := actions[..|actions| - 1], actions[|actions| - 1];
      FlagsRightExactly(front);
      RespectSplits(actions);
      ThroughoutSplits(actions);
      assert front[..|front|] == front;
      assert FlagsRightThroughout(front) ==> FlagsAt(front, |front|) && FlagsRight(Run(front).register);
      assert Run(actions) == Step(Run(front), a);
      hide Run, Step, FlagsRight, Respects, FlagsRightThroughout, AllRespect, FlagsAt, Inv;
      if FlagsRightThroughout(front) {
        RunKeepsInv(front);
        StepKeepsFlags(Run(front), a);
      }
    }
  }

  /** So in such a run the flag is right at the end. */
  lemma RunKeepsFlags(actions: seq<Action>)
    requires AllRespect(actions)
    ensures FlagsRight(Run(actions).register)
  {
    FlagsRightExactly(actions);
    assert FlagsAt(actions, |actions|);
    assert actions[..|actions|] == actions;
  }

  /** Checked and completed in one go, an invite fills an apartment that was empty, and with one person. */
  lemma CompletionFillsEmpty(actions: seq<Action>, found: Option<InviteId>, now: Time, id: ResidentId)
    requires AllRespect(actions)
    requires CompleteInvite(Run(actions).register, found, now, id).1.Ok?
    ensures found.Some? && found.value in Run(actions).register.invites
    ensures var before, after := Run(actions).register, CompleteInvite(Run(actions).register, found, now, id).0;
      var a := before.invites[found.value].apartment;
      Assigned(before.residents, a) == {} && Assigned(after.residents, a) == {id}
      && after.residents[id].email == before.invites[found.value].email
  {
    RunKeepsFlags(actions);
    var before := Run(actions).register;
    var row := before.invites[found.value];
    AssignedAfter(before.residents, id, Resident(row.estate, row.apartment, row.email, Live), row.apartment);
  }

  /**
   * When the check and the write are apart, the apartment was empty exactly when its flag still says so at the
   * write.
   */
  lemma FinishedCompletionExactly(actions: seq<Action>, request: RequestId, id: ResidentId)
    requires AllRespect(actions) && request in Run(actions).pending && Run(actions).pending[request].Completing?
    ensures var o := Run(actions); var t := o.pending[request].ticket;
      t.invite in o.register.invites && t.row.apartment in o.register.apartments
      && (CommitCompletion(o.register, t, id).1.Ok? ==>
            var after := CommitCompletion(o.register, t, id).0;
            Assigned(after.residents, t.row.apartment) == Assigned(o.register.residents, t.row.apartment) + {id}
            && (Assigned(after.residents, t.row.apartment) == {id} <==> !o.register.apartments[t.row.apartment].occupied))
  {
    RunKeepsFlags(actions);
    RunKeepsInv(actions);
    var o := Run(actions);
    var t := o.pending[request].ticket;
    assert PendingMatches(o.pending[request], o.register);
    AssignedAfter(o.register.residents, id, Resident(t.row.estate, t.row.apartment, t.row.email, Live), t.row.apartment);
    assert id !in o.register.residents ==> id !in Assigned(o.register.residents, t.row.apartment);
  }

  // ---- Two people in one apartment ----

  /**
   * Two checks of one empty apartment's invites can both be completed: the second look at the flag is outside the
   * transaction.
   */
  lemma SplitCompletionsShare(r: Register, one: InviteId, other: InviteId, now: Time, first: ResidentId, second: ResidentId)
    requires CheckCompletion(r, Some(one), now).Ok? && CheckCompletion(r, Some(other), now).Ok?
    requires r.invites[one].apartment == r.invites[other].apartment && r.invites[one].email != r.invites[other].email
    requires r.invites[one].email !in r.emails && r.invites[other].email !in r.emails
    requires first !in r.residents && second !in r.residents && first != second
    ensures var t1, t2 := CheckCompletion(r, Some(one), now).value, CheckCompletion(r, Some(other), now).value;
      var (halfway, done1) := CommitCompletion(r, t1, first);
      var (after, done2) := CommitCompletion(halfway, t2, second);
      done1.Ok? && done2.Ok? && {first, second} <= Assigned(after.residents, r.invites[one].apartment)
  {
  }
}
