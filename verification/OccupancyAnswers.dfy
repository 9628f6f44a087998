/** When residents and invites may be changed, who lives where afterwards, and how long an invite's link is good for. */
module OccupancyAnswers {
  import opened Domain
  import opened Occupancy
  import opened OccupancyRuns

  // ---- Residents ----

  /** Everyone but this resident is as before. */
  predicate OthersStay(before: Register, after: Register, id: ResidentId) {
    forall x :: x in before.residents && x != id ==> x in after.residents && after.residents[x] == before.residents[x]
  }

  /** A new apartment is the estate's and vacant, and the others stay as they are. */
  lemma ApartmentIsAdded(r: Register, estate: EstateId, a: ApartmentId)
    ensures var (after, done) := AddApartment(r, estate, a);
      && (done.Ok? <==> a !in r.apartments) && (done.Err? ==> after == r)
      && (done.Ok? ==>
            && a in after.apartments && after.apartments[a].estate == estate && !after.apartments[a].occupied
            && after.apartments - {a} == r.apartments && after.residents == r.residents && after.invites == r.invites)
  {
    if a !in r.apartments {
      assert AddApartment(r, estate, a).0.apartments - {a} == r.apartments;
    }
  }

  /** A new resident needs an apartment of the estate and an address that no account has; and then lives there. */
  lemma ArrivalExactly(r: Register, estate: EstateId, a: ApartmentId, email: Email, id: ResidentId)
    ensures var (after, done) := AddResident(r, estate, a, email, id);
      && (done.Ok? <==> a in r.apartments && r.apartments[a].estate == estate && email !in r.emails && id !in r.residents)
      && (done.Err? ==> after == r)
      && (done.Ok? ==>
            && after.residents == r.residents[id := Resident(estate, a, email, Live)] && after.emails == r.emails + {email}
            && Assigned(after.residents, a) == Assigned(r.residents, a) + {id}
            && (after.invites, after.completions) == (r.invites, r.completions))
  {
  }

  /** A move needs an apartment of the estate, and the resident then lives in that one and no other. */
  lemma MoveExactly(r: Register, estate: EstateId, id: ResidentId, to: ApartmentId)
    ensures var (after, done) := MoveResident(r, estate, id, Some(to));
      && (done.Ok? <==> id in r.residents && r.residents[id].estate == estate
                        && (to == r.residents[id].apartment || (to in r.apartments && r.apartments[to].estate == estate)))
      && (done.Err? ==> after == r) && OthersStay(r, after, id)
      && (done.Ok? ==>
            && id in after.residents && after.residents[id] == r.residents[id].(apartment := to)
            && forall a :: id in Assigned(after.residents, a) <==> a == to && r.residents[id].status != Removed)
  {
  }

  /** A removal needs the administrator's password, and the resident then lives nowhere. */
  lemma RemovalExactly(r: Register, estate: EstateId, id: ResidentId, passwordOk: bool)
    ensures var (after, done) := RemoveResident(r, estate, id, passwordOk);
      && (done.Ok? <==> id in r.residents && r.residents[id].estate == estate && passwordOk)
      && (done == Err(Forbidden) <==> id in r.residents && r.residents[id].estate == estate && !passwordOk)
      && (done.Err? ==> after == r) && OthersStay(r, after, id)
      && (done.Ok? ==>
            && id in after.residents && after.residents[id] == r.residents[id].(status := Removed) && after.emails == r.emails
            && forall a :: id !in Assigned(after.residents, a))
  {
  }

  /** Suspending and reinstating change the account's status and nothing else; either way the resident then lives there. */
  lemma StatusExactly(r: Register, estate: EstateId, id: ResidentId, suspend: bool)
    ensures var (after, done) := SetResidentStatus(r, estate, id, suspend);
      && (done.Ok? <==> id in r.residents && r.residents[id].estate == estate)
      && (done.Err? ==> after == r) && OthersStay(r, after, id) && after.apartments == r.apartments
      && (done.Ok? ==>
            && id in after.residents && after.residents[id] == r.residents[id].(status := after.residents[id].status)
            && (after.residents[id].status == Suspended <==> suspend) && (after.residents[id].status == Live <==> !suspend)
            && id in Assigned(after.residents, r.residents[id].apartment))
  {
  }

  // ---- Invites ----

  /** The link of an open invite whose time has not run out, to an apartment marked vacant. */
  predicate LinkWorks(r: Register, i: InviteId, now: Time) {
    && i in r.invites && r.invites[i].status == Open && now <= r.invites[i].expiresAt
    && r.invites[i].apartment in r.apartments && !r.apartments[r.invites[i].apartment].occupied
  }

  /**
   * A completion is accepted exactly with a link that works, an address no account has and a new account; Gone says that the
   * link is dead, and a used one stays so.
   */
  lemma CompletionExactly(r: Register, found: Option<InviteId>, now: Time, id: ResidentId)
    ensures CheckCompletion(r, found, now).Ok? <==> found.Some? && LinkWorks(r, found.value, now)
    ensures var (after, done) := CompleteInvite(r, found, now, id);
      && (done.Ok? <==> found.Some? && LinkWorks(r, found.value, now) && r.invites[found.value].email !in r.emails && id !in r.residents)
      && (done.Err? ==> after == r)
      && (done == Err(Gone) <==> found.Some? && found.value in r.invites
                                 && (r.invites[found.value].status != Open || r.invites[found.value].expiresAt < now))
      && (done.Ok? ==>
            var i := r.invites[found.value];
            && after.residents == r.residents[id := Resident(i.estate, i.apartment, i.email, Live)]
            && after.apartments[i.apartment].occupied && after.emails == r.emails + {i.email}
            && after.invites[found.value].status == Consumed
            && forall t, other :: CompleteInvite(after, found, t, other).1 == Err(Gone))
  {
  }

  /** An invite needs a vacant apartment of the estate and an address no account has; its link then works for two hours. */
  lemma NewLinkWorks(r: Register, estate: EstateId, a: ApartmentId, email: Email, i: InviteId, tokenHash: string, now: Time)
    ensures var (after, done) := CreateInvite(r, estate, a, email, i, tokenHash, now);
      && (done.Ok? <==> a in r.apartments && r.apartments[a].estate == estate && !r.apartments[a].occupied && email !in r.emails
                        && i !in r.invites && !LinkTaken(r.invites, tokenHash))
      && (done.Err? ==> after == r)
      && (done.Ok? ==>
            && i in after.invites && after.invites[i].email == email && after.invites[i].apartment == a && after.invites[i].tokenHash == tokenHash
            && (forall t :: LinkWorks(after, i, t) <==> t <= now + 7_200_000)
            && forall other, t :: other in r.invites && other != i && r.invites[other].apartment == a ==> !LinkWorks(after, other, t))
  {
  }

  /** Any invite that is not used can be sent again, and its link then works for two hours while the apartment is vacant. */
  lemma ResentLinkWorks(r: Register, estate: EstateId, i: InviteId, tokenHash: string, now: Time)
    ensures var (after, done) := ResendInvite(r, estate, i, tokenHash, now);
      && (done.Ok? <==> i in r.invites && r.invites[i].estate == estate && r.invites[i].status != Consumed && !LinkTaken(r.invites, tokenHash))
      && (done == Err(Conflict) <==> i in r.invites && r.invites[i].estate == estate && r.invites[i].status == Consumed)
      && (done.Err? ==> after == r)
      && (done.Ok? ==>
            && after.invites.Keys == r.invites.Keys && after.invites[i].tokenHash == tokenHash
            && after.invites[i].email == r.invites[i].email && after.invites[i].apartment == r.invites[i].apartment
            && (forall other :: other in r.invites && other != i ==> after.invites[other] == r.invites[other])
            && forall t :: LinkWorks(after, i, t) <==>
                 t <= now + 7_200_000 && r.invites[i].apartment in r.apartments && !r.apartments[r.invites[i].apartment].occupied)
  {
  }

  /** Only an open invite can be cancelled; its link then never works until it is sent again. */
  lemma CancelledLinkIsDead(r: Register, estate: EstateId, i: InviteId)
    ensures var (after, done) := CancelInvite(r, estate, i);
      && (done.Ok? <==> i in r.invites && r.invites[i].estate == estate && r.invites[i].status == Open)
      && (done == Err(Conflict) <==> i in r.invites && r.invites[i].estate == estate && r.invites[i].status != Open)
      && (done.Err? ==> after == r)
      && (done.Ok? ==> i in after.invites && (forall t :: !LinkWorks(after, i, t))
                       && forall other, t :: other != i ==> (LinkWorks(after, other, t) <==> LinkWorks(r, other, t)))
  {
  }

  // ---- Over runs: two hours from the last time the link was sent ----

  function SentAt(a: Action): Time {
    if a.NewInvite? || a.FinishInvite? || a.Resend? || a.FinishResend? then a.now else 0
  }

  /** The step gave the invite the link it now has. */
  predicate GivesLink(before: Register, after: Register, i: InviteId) {
    i in after.invites && (i !in before.invites || before.invites[i].tokenHash != after.invites[i].tokenHash)
  }

  /** When the invite got its present link: at its creation or the last time it was sent again. */
  function LinkSentAt(actions: seq<Action>, i: InviteId): Time {
    if actions == [] then 0
    else
      var front, a := actions[..|actions| - 1], actions[|actions| - 1];
      if GivesLink(Run(front).register, Run(actions).register, i) then SentAt(a) else LinkSentAt(front, i)
  }

  /** A link given for two hours from now, or the row's link and time as they were. */
  predicate ExpiryGoesOn(before: Register, after: Register, i: InviteId, a: Action) {
    i in after.invites ==>
      if GivesLink(before, after, i) then
        (a.NewInvite? || a.FinishInvite? || a.Resend? || a.FinishResend?) && after.invites[i].expiresAt == a.now + 7_200_000
      else i in before.invites && after.invites[i].expiresAt == before.invites[i].expiresAt
  }

  lemma FinishKeepsExpiry(o: Office, a: Action, i: InviteId)
    requires Finishes(a) && a.request in o.pending
    ensures ExpiryGoesOn(o.register, Finish(o, a).register, i, a)
  {
    var r := o.register;
    assert a.FinishResend? && i in r.invites && r.invites[i].tokenHash == a.tokenHash ==> LinkTaken(r.invites, a.tokenHash);
  }

  lemma StepKeepsExpiry(o: Office, a: Action, i: InviteId)
    ensures ExpiryGoesOn(o.register, Step(o, a).register, i, a)
  {
    var r := o.register;
    hide Assigned, Finish;
    if a.Complete? {
      return;
    }
    hide CheckCompletion;
    if Finishes(a) {
      if a.request in o.pending { FinishKeepsExpiry(o, a, i); }
    } else if a.Resend? {
      assert i in r.invites && r.invites[i].tokenHash == a.tokenHash ==> LinkTaken(r.invites, a.tokenHash);
    } else if ForResidents(a) {
    } else {
      hide LinkTaken;
    }
  }

  lemma {:induction false} ExpiryFollowsLink(actions: seq<Action>, i: InviteId)
    requires i in Run(actions).register.invites
    ensures Run(actions).register.invites[i].expiresAt == LinkSentAt(actions, i) + 7_200_000
  {
    if actions != [] {
      var front, a := actions[..|actions| - 1], actions[|actions| - 1];
      hide Step;
      StepKeepsExpiry(Run(front), a, i);
      if !GivesLink(Run(front).register, Run(actions).register, i) { ExpiryFollowsLink(front, i); }
    }
  }

  /**
   * In every run, a completion is accepted only with an open invite and within two hours of its creation or of the last time
   * it was sent again, whichever is later.
   */
  lemma CompletedWithinTwoHours(actions: seq<Action>, found: Option<InviteId>, now: Time)
    requires CheckCompletion(Run(actions).register, found, now).Ok?
    ensures found.Some? && found.value in Run(actions).register.invites && Run(actions).register.invites[found.value].status == Open
    ensures now <= LinkSentAt(actions, found.value) + 7_200_000
  {
    CompletionExactly(Run(actions).register, found, now, 0);
    ExpiryFollowsLink(actions, found.value);
    hide Run, LinkSentAt;
  }
}
