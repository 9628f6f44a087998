/** How invites fare over runs: when a used one stays used, when an apartment has one live invite, and runs that end badly. */
module OccupancyInvites {
  import opened Domain
  import opened Occupancy
  import opened OccupancyRuns

  // ---- When a used invite stays used ----

  predicate Completed(r: Register, i: InviteId) {
    exists k :: 0 <= k < |r.completions| && r.completions[k].invite == i
  }

  predicate Used(r: Register, i: InviteId) {
    i in r.invites && r.invites[i].status == Consumed
  }

  /** The late write of a resend or a cancellation of this invite. */
  predicate WritesLate(o: Office, a: Action, i: InviteId) {
    (a.FinishResend? && a.request in o.pending && o.pending[a.request] == Resending(i) && !LinkTaken(o.register.invites, a.tokenHash))
    || (a.FinishCancel? && a.request in o.pending && o.pending[a.request] == Cancelling(i))
  }

  /** A step leaves the completions as they are, or adds one and marks its invite used. */
  lemma CompletionsGrow(o: Office, a: Action)
    requires Inv(o)
    ensures var before, after := o.register, Step(o, a).register;
      after.completions == before.completions
      || exists c :: after.completions == before.completions + [c] && c.invite in before.invites
           && after.invites == before.invites[c.invite := before.invites[c.invite].(status := Consumed)]
           && before.invites[c.invite].email !in before.emails
  {
    if a.Complete? {
      var checked := CheckCompletion(o.register, a.found, a.now);
      if checked.Ok? { CommitGrows(o.register, checked.value, a.resident); }
    } else if a.FinishCompletion? && a.request in o.pending && o.pending[a.request].Completing? {
      assert PendingMatches(o.pending[a.request], o.register);
      CommitGrows(o.register, o.pending[a.request].ticket, a.resident);
    }
    hide LinkTaken, Assigned, Inv, CommitCompletion;
  }

  lemma CommitGrows(r: Register, t: Ticket, id: ResidentId)
    requires PendingMatches(Completing(t), r)
    ensures var after := CommitCompletion(r, t, id).0;
      after == r
      || exists c :: after.completions == r.completions + [c] && c.invite in r.invites
           && after.invites == r.invites[c.invite := r.invites[c.invite].(status := Consumed)] && r.invites[c.invite].email !in r.emails
  {
    if CommitCompletion(r, t, id).1.Ok? {
      assert CommitCompletion(r, t, id).0.completions == r.completions + [Completion(t.invite, id)];
    }
  }

  /** What one step makes of an invite's mark, completions aside. */
  lemma StepMarks(o: Office, a: Action, i: InviteId)
    requires i in o.register.invites && Step(o, a).register.completions == o.register.completions
    ensures Used(Step(o, a).register, i) <==> Used(o.register, i) && !WritesLate(o, a, i)
  {
    hide Assigned, LinkTaken, CommitCompletion;
    if Finishes(a) {
      if a.request in o.pending { FinishMarks(o, a, i); }
    } else if a.Complete? && CheckCompletion(o.register, a.found, a.now).Ok? {
      RefusedCommit(o.register, CheckCompletion(o.register, a.found, a.now).value, a.resident);
    }
    hide Finish;
  }

  lemma FinishMarks(o: Office, a: Action, i: InviteId)
    requires Finishes(a) && a.request in o.pending
    requires i in o.register.invites && Finish(o, a).register.completions == o.register.completions
    ensures Used(Finish(o, a).register, i) <==> Used(o.register, i) && !WritesLate(o, a, i)
  {
    var p := o.pending[a.request];
    if a.FinishCompletion? && p.Completing? && p.ticket.invite in o.register.invites {
      RefusedCommit(o.register, p.ticket, a.resident);
    }
    hide LinkTaken, CommitCompletion;
  }

  lemma RefusedCommit(r: Register, t: Ticket, id: ResidentId)
    requires t.invite in r.invites
    ensures CommitCompletion(r, t, id).0.completions == r.completions ==> CommitCompletion(r, t, id).0 == r
  {
    if CommitCompletion(r, t, id).1.Ok? {
      assert |CommitCompletion(r, t, id).0.completions| == |r.completions| + 1;
    }
  }

  /** Once completed, only a late write can change whether an invite is marked used; and nothing marks it so again. */
  lemma StepUsesExactly(o: Office, a: Action, i: InviteId)
    requires Inv(o) && Completed(o.register, i)
    ensures Completed(Step(o, a).register, i)
    ensures Used(Step(o, a).register, i) <==> Used(o.register, i) && !WritesLate(o, a, i)
  {
    var k :| 0 <= k < |o.register.completions| && o.register.completions[k].invite == i;
    CompletionsGrow(o, a);
    assert Step(o, a).register.completions[k] == o.register.completions[k];
    if Step(o, a).register.completions == o.register.completions {
      StepMarks(o, a, i);
    } else {
      OnlyCommitsGrow(o, a);
    }
    hide Step;
  }

  lemma OnlyCommitsGrow(o: Office, a: Action)
    ensures Step(o, a).register.completions != o.register.completions ==> a.Complete? || a.FinishCompletion?
  {
    hide LinkTaken, Assigned, CommitCompletion;
  }

  lemma CompletionUses(o: Office, a: Action, i: InviteId)
    requires Inv(o) && !Completed(o.register, i) && Completed(Step(o, a).register, i)
    ensures Used(Step(o, a).register, i)
  {
    CompletionsGrow(o, a);
    hide Step, Inv;
  }

  /** Nothing came late for an invite once it was completed. */
  predicate NothingLate(actions: seq<Action>, i: InviteId) {
    forall k :: 0 <= k < |actions| ==>
      !(Completed(Run(actions[..k]).register, i) && WritesLate(Run(actions[..k]), actions[k], i))
  }

  lemma {:induction false} StaysCompleted(actions: seq<Action>, n: nat, i: InviteId)
    requires n <= |actions| && Completed(Run(actions[..n]).register, i)
    ensures Completed(Run(actions).register, i)
  {
    hide Step, Completed, Inv;
    if n < |actions| {
      var front := actions[..|actions| - 1];
      assert front[..n] == actions[..n];
      StaysCompleted(front, n, i);
      RunKeepsInv(front);
      StepUsesExactly(Run(front), actions[|actions| - 1], i);
    } else {
      assert actions[..n] == actions;
    }
  }

  lemma NothingLateSteps(front: seq<Action>, a: Action, i: InviteId)
    ensures NothingLate(front + [a], i)
      <==> NothingLate(front, i) && !(Completed(Run(front).register, i) && WritesLate(Run(front), a, i))
  {
    hide Run, Completed, WritesLate;
    var actions := front + [a];
    assert actions[..|front|] == front;
    forall k | 0 <= k < |front|
      ensures actions[..k] == front[..k] && actions[k] == front[k]
    {
    }
  }

  lemma NotYetCompleted(actions: seq<Action>, i: InviteId)
    requires !Completed(Run(actions).register, i)
    ensures NothingLate(actions, i)
  {
    forall k | 0 <= k < |actions|
      ensures !Completed(Run(actions[..k]).register, i)
    {
      if Completed(Run(actions[..k]).register, i) { StaysCompleted(actions, k, i); }
    }
    hide Run, Completed, WritesLate;
  }

  /** A completed invite is still marked used exactly when no resend or cancellation read it before and wrote after. */
  lemma {:induction false} StaysUsedExactly(actions: seq<Action>, i: InviteId)
    requires Completed(Run(actions).register, i)
    ensures Used(Run(actions).register, i) <==> NothingLate(actions, i)
  {
    if actions != [] {
      var front, a := actions[..|actions| - 1], actions[|actions| - 1];
      assert actions == front + [a] && Run(actions) == Step(Run(front), a);
      hide Run, Step, Inv, Used, Completed, WritesLate, NothingLate;
      RunKeepsInv(front);
      NothingLateSteps(front, a, i);
      if Completed(Run(front).register, i) {
        StaysUsedExactly(front, i);
        StepUsesExactly(Run(front), a, i);
      } else {
        CompletionUses(Run(front), a, i);
        NotYetCompleted(front, i);
      }
    }
  }

  ghost predicate AllUsed(r: Register) {
    forall i :: Completed(r, i) ==> Used(r, i)
  }

  /** With no request half done, nothing can come late. */
  lemma WholeStepsKeepAllUsed(r: Register, a: Action)
    requires Inv(Office(r, map[])) && AllUsed(r)
    ensures AllUsed(Step(Office(r, map[]), a).register)
  {
    var o := Office(r, map[]);
    forall i | Completed(Step(o, a).register, i)
      ensures Used(Step(o, a).register, i)
    {
      if Completed(r, i) { StepUsesExactly(o, a, i); } else { CompletionUses(o, a, i); }
    }
  }

  // ---- One live invite per apartment ----

  predicate OneLive(r: Register) {
    forall i, j ::
      i in r.invites && j in r.invites && r.invites[i].status == Open && r.invites[j].status == Open
      && r.invites[i].apartment == r.invites[j].apartment
      ==> i == j
  }

  /** Another invite of the apartment is open. */
  predicate OtherOpen(r: Register, i: InviteId, a: ApartmentId) {
    exists j :: j in r.invites && j != i && r.invites[j].status == Open && r.invites[j].apartment == a
  }

  lemma OpeningOne(r: Register, r': Register, i: InviteId, row: Invite)
    requires OneLive(r) && r'.invites == r.invites[i := row] && row.status == Open
    ensures OneLive(r') <==> !OtherOpen(r, i, row.apartment)
  {
    if j :| j in r.invites && j != i && r.invites[j].status == Open && r.invites[j].apartment == row.apartment {
      assert r'.invites[j].status == Open && r'.invites[i].status == Open;
    }
  }

  lemma NewInviteKeepsOneLive(r: Register, estate: EstateId, a: ApartmentId, email: Email, id: InviteId, tokenHash: string, now: Time)
    requires OneLive(r)
    ensures OneLive(CreateInvite(r, estate, a, email, id, tokenHash, now).0)
  {
    var r1 := r.(invites := Superseded(r.invites, a));
    if CreateInvite(r, estate, a, email, id, tokenHash, now).1.Ok? {
      hide LinkTaken;
      OpeningOne(r1, CreateInvite(r, estate, a, email, id, tokenHash, now).0, id,
                 Invite(estate, a, email, tokenHash, Open, now + INVITE_TTL_MS));
    }
  }

  /** Resending keeps one live invite per apartment unless it revives a cancelled one beside an open one. */
  lemma ResendKeepsOneLiveExactly(r: Register, estate: EstateId, id: InviteId, tokenHash: string, now: Time)
    requires OneLive(r) && ResendInvite(r, estate, id, tokenHash, now).1.Ok?
    ensures OneLive(ResendInvite(r, estate, id, tokenHash, now).0) <==> !OtherOpen(r, id, r.invites[id].apartment)
  {
    hide LinkTaken;
    var after := ResendInvite(r, estate, id, tokenHash, now).0;
    OpeningOne(r, after, id, after.invites[id]);
  }

  /** A write that opens an invite without closing the apartment's others: a resend, or the last half of a creation. */
  predicate OpensBeside(o: Office, a: Action) {
    var r := o.register;
    || (a.Resend? && ResendInvite(r, a.estate, a.invite, a.tokenHash, a.now).1.Ok? && OtherOpen(r, a.invite, r.invites[a.invite].apartment))
    || (a.FinishResend? && a.request in o.pending && o.pending[a.request].Resending?
        && var i := o.pending[a.request].invite;
           i in r.invites && !LinkTaken(r.invites, a.tokenHash) && OtherOpen(r, i, r.invites[i].apartment))
    || (a.FinishInvite? && a.request in o.pending && o.pending[a.request].Inviting? && o.pending[a.request].superseded
        && a.invite !in r.invites && !LinkTaken(r.invites, a.tokenHash) && OtherOpen(r, a.invite, o.pending[a.request].apartment))
  }

  /** Invites may close, but none opens. */
  lemma ClosingKeepsOneLive(r: Register, r': Register)
    requires OneLive(r)
    requires forall i :: i in r'.invites && r'.invites[i].status == Open ==>
      i in r.invites && r.invites[i].status == Open && r.invites[i].apartment == r'.invites[i].apartment
    ensures OneLive(r')
  {
  }

  lemma FinishKeepsOneLiveExactly(o: Office, a: Action)
    requires OneLive(o.register) && Finishes(a) && a.request in o.pending
    ensures OneLive(Finish(o, a).register) <==> !OpensBeside(o, a)
  {
    hide LinkTaken, OtherOpen, OneLive;
    var r, p, r' := o.register, o.pending[a.request], Finish(o, a).register;
    if a.FinishResend? && p.Resending? && p.invite in r.invites && !LinkTaken(r.invites, a.tokenHash) {
      OpeningOne(r, r', p.invite, r'.invites[p.invite]);
    } else if a.FinishInvite? && p.Inviting? && p.superseded && a.invite !in r.invites && !LinkTaken(r.invites, a.tokenHash) {
      OpeningOne(r, r', a.invite, r'.invites[a.invite]);
    } else {
      ClosingKeepsOneLive(r, r');
    }
  }

  lemma StepKeepsOneLiveExactly(o: Office, a: Action)
    requires OneLive(o.register)
    ensures OneLive(Step(o, a).register) <==> !OpensBeside(o, a)
  {
    hide LinkTaken, OtherOpen, OneLive, Assigned, Finish;
    var r := o.register;
    if ForResidents(a) {
      ResidentStepsLeaveInvites(o, a);
      ClosingKeepsOneLive(r, Step(o, a).register);
    } else if Finishes(a) {
      if a.request in o.pending { FinishKeepsOneLiveExactly(o, a); }
    } else if a.NewInvite? {
      NewInviteKeepsOneLive(r, a.estate, a.apartment, a.email, a.invite, a.tokenHash, a.now);
    } else if a.Resend? && ResendInvite(r, a.estate, a.invite, a.tokenHash, a.now).1.Ok? {
      ResendKeepsOneLiveExactly(r, a.estate, a.invite, a.tokenHash, a.now);
    } else {
      ClosingKeepsOneLive(r, Step(o, a).register);
    }
  }

  lemma ResidentStepsLeaveInvites(o: Office, a: Action)
    requires ForResidents(a)
    ensures Step(o, a).register.invites == o.register.invites
  {
    hide Assigned;
  }

  predicate OneLiveAt(actions: seq<Action>, n: nat)
    requires n <= |actions|
  {
    OneLive(Run(actions[..n]).register)
  }

  predicate OpensBesideAt(actions: seq<Action>, n: nat)
    requires n < |actions|
  {
    OpensBeside(Run(actions[..n]), actions[n])
  }

  predicate OneLiveThroughout(actions: seq<Action>) {
    forall n: nat :: n <= |actions| ==> OneLiveAt(actions, n)
  }

  predicate NothingOpensBeside(actions: seq<Action>) {
    forall n: nat :: n < |actions| ==> !OpensBesideAt(actions, n)
  }

  lemma AtOfPrefix(actions: seq<Action>, m: nat, n: nat)
    requires n <= m <= |actions|
    ensures OneLiveAt(actions[..m], n) == OneLiveAt(actions, n)
    ensures n < m ==> OpensBesideAt(actions[..m], n) == OpensBesideAt(actions, n)
  {
    hide Run, OneLive, OpensBeside;
    assert actions[..m][..n] == actions[..n];
  }

  lemma ThroughoutSteps(actions: seq<Action>, m: nat)
    requires |actions| == m + 1
    ensures OneLiveThroughout(actions) <==> OneLiveThroughout(actions[..m]) && OneLiveAt(actions, m + 1)
    ensures NothingOpensBeside(actions) <==> NothingOpensBeside(actions[..m]) && !OpensBesideAt(actions, m)
  {
    hide OneLiveAt, OpensBesideAt;
    forall n: nat | n <= m
      ensures OneLiveAt(actions[..m], n) == OneLiveAt(actions, n)
      ensures n < m ==> OpensBesideAt(actions[..m], n) == OpensBesideAt(actions, n)
    {
      AtOfPrefix(actions, m, n);
    }
  }

  lemma OneLiveSteps(actions: seq<Action>, m: nat)
    requires |actions| == m + 1 && OneLiveAt(actions, m)
    ensures OneLiveAt(actions, m + 1) <==> !OpensBesideAt(actions, m)
  {
    StepKeepsOneLiveExactly(Run(actions[..m]), actions[m]);
    RunSteps(actions, m);
    hide Run, Step, OneLive, OpensBeside;
  }

  lemma NoneAtFirst()
    ensures OneLiveThroughout([]) && NothingOpensBeside([])
  {
    var none: seq<Action> := [];
    assert none[..0] == none && Run(none) == EMPTY_OFFICE;
  }

  /** At every moment of a run there is one live invite per apartment, exactly when no write opens one beside another. */
  lemma {:induction false} OneLiveThroughoutExactly(actions: seq<Action>)
    ensures OneLiveThroughout(actions) <==> NothingOpensBeside(actions)
  {
    if actions == [] {
      NoneAtFirst();
    } else {
      var m := |actions| - 1;
      OneLiveThroughoutExactly(actions[..m]);
      ThroughoutSteps(actions, m);
      AtOfPrefix(actions, m, m);
      assert OneLiveThroughout(actions[..m]) ==> OneLiveAt(actions[..m], m);
      hide OneLiveThroughout, NothingOpensBeside;
      if OneLiveAt(actions, m) { OneLiveSteps(actions, m); }
      hide OneLiveAt, OpensBesideAt;
    }
  }

  lemma RunSteps(actions: seq<Action>, n: nat)
    requires n < |actions|
    ensures Run(actions[..n + 1]) == Step(Run(actions[..n]), actions[n])
  {
    assert actions[..n + 1][..n] == actions[..n];
    hide Step;
  }

  // ---- Runs that end badly ----

  const INVITING: seq<Action> := [
    NewApartment(0, 1),
    NewInvite(0, 1, "ada", 1, "first", 0),
    NewInvite(0, 1, "obi", 2, "second", 0),
    Resend(0, 1, "third", 0)]

  function Invited(): Register {
    var r1 := AddApartment(EMPTY_REGISTER, 0, 1).0;
    var r2 := CreateInvite(r1, 0, 1, "ada", 1, "first", 0).0;
    var r3 := CreateInvite(r2, 0, 1, "obi", 2, "second", 0).0;
    ResendInvite(r3, 0, 1, "third", 0).0
  }

  lemma RunSnoc(actions: seq<Action>, a: Action)
    ensures Run(actions + [a]) == Step(Run(actions), a)
  {
    assert (actions + [a])[..|actions|] == actions;
  }

  lemma RunInviting()
    ensures Run(INVITING) == Office(Invited(), map[])
  {
    hide AddApartment, CreateInvite, ResendInvite;
    RunSnoc([], INVITING[0]);
    RunSnoc(INVITING[..1], INVITING[1]);
    RunSnoc(INVITING[..2], INVITING[2]);
    RunSnoc(INVITING[..3], INVITING[3]);
    assert [] + [INVITING[0]] == INVITING[..1] && INVITING[..1] + [INVITING[1]] == INVITING[..2];
    assert INVITING[..2] + [INVITING[2]] == INVITING[..3] && INVITING[..3] + [INVITING[3]] == INVITING;
  }

  /** Such a pair is reached by resending an invite that a newer one had superseded. */
  lemma TwoLiveInvites()
    ensures var r := Run(INVITING).register;
      !OneLive(r) && r.emails == {} && r.residents == map[]
      && 1 in r.invites && 2 in r.invites && r.invites[1].apartment == r.invites[2].apartment && r.invites[1].email != r.invites[2].email
      && CheckCompletion(r, Some(1), 0).Ok? && CheckCompletion(r, Some(2), 0).Ok?
  {
    RunInviting();
    hide Run;
    var r1 := AddApartment(EMPTY_REGISTER, 0, 1).0;
    assert r1 == EMPTY_REGISTER.(apartments := map[1 := Apartment(0, false)]);
    var r2 := CreateInvite(r1, 0, 1, "ada", 1, "first", 0).0;
    assert r2 == r1.(invites := map[1 := Invite(0, 1, "ada", "first", Open, INVITE_TTL_MS)]);
    var r3 := CreateInvite(r2, 0, 1, "obi", 2, "second", 0).0;
    assert "second" != "first";
    assert r3 == r1.(invites := map[1 := Invite(0, 1, "ada", "first", Cancelled, INVITE_TTL_MS),
                                    2 := Invite(0, 1, "obi", "second", Open, INVITE_TTL_MS)]);
    assert "third"[0] != "first"[0] && |"third"| != |"second"| && "ada"[0] != "obi"[0];
    var r4 := ResendInvite(r3, 0, 1, "third", 0).0;
    assert r4 == r3.(invites := r3.invites[1 := Invite(0, 1, "ada", "third", Open, INVITE_TTL_MS)]);
    assert r4.invites[1].status == r4.invites[2].status == Open;
  }

  const EMPTY_FLAT := EMPTY_REGISTER.(apartments := map[1 := Apartment(0, false)])
  const ADA_INVITE := Invite(0, 1, "ada", "first", Open, INVITE_TTL_MS)

  /** A resend that checks before a completion and writes after it makes a used invite live again. */
  const REOPENING: seq<Action> := [
    NewApartment(0, 1), NewInvite(0, 1, "ada", 1, "first", 0), StartResend(5, 0, 1), Complete(Some(1), 0, 10),
    FinishResend(5, "second", 0)]

  lemma ResendStarted()
    ensures Run(REOPENING[..3]) == Office(EMPTY_FLAT.(invites := map[1 := ADA_INVITE]), map[5 := Resending(1)])
  {
    var a := REOPENING;
    RunSteps(a, 0);
    RunSteps(a, 1);
    RunSteps(a, 2);
    assert a[..0] == [] && Run([]) == EMPTY_OFFICE;
    hide Run;
    assert Run(a[..1]) == Office(EMPTY_FLAT, map[]);
    assert Superseded(map[], 1) == map[];
    assert Run(a[..2]) == Office(EMPTY_FLAT.(invites := map[1 := ADA_INVITE]), map[]);
  }

  const ADA_LIVES_THERE := Register(
    map[1 := Apartment(0, true)], map[10 := Resident(0, 1, "ada", Live)], {"ada"}, map[1 := ADA_INVITE.(status := Consumed)], [Completion(1, 10)])

  lemma AdaMovesIn(pending: map<RequestId, Pending>)
    ensures Step(Office(EMPTY_FLAT.(invites := map[1 := ADA_INVITE]), pending), Complete(Some(1), 0, 10))
            == Office(ADA_LIVES_THERE, pending)
  {
    assert CompleteInvite(EMPTY_FLAT.(invites := map[1 := ADA_INVITE]), Some(1), 0, 10).0 == ADA_LIVES_THERE;
  }

  lemma HerInviteIsResent()
    ensures var r := Step(Office(ADA_LIVES_THERE, map[5 := Resending(1)]), FinishResend(5, "second", 0)).register;
      Completed(r, 1) && !Used(r, 1)
  {
    assert "second" != "first" && !LinkTaken(ADA_LIVES_THERE.invites, "second");
    hide LinkTaken;
    var r := WriteResend(ADA_LIVES_THERE, 1, "second", 0).0;
    assert r.completions[0].invite == 1 && r.invites[1].status == Open;
  }

  lemma UsedInviteReopened()
    ensures Completed(Run(REOPENING).register, 1) && !Used(Run(REOPENING).register, 1)
  {
    var a := REOPENING;
    ResendStarted();
    RunSteps(a, 3);
    RunSteps(a, 4);
    assert a[..5] == a;
    hide Run, Step, Completed, Used;
    AdaMovesIn(map[5 := Resending(1)]);
    HerInviteIsResent();
  }

  /** Someone removed from an apartment now empty is reinstated. */
  const REINSTATING: seq<Action> := [
    NewApartment(0, 1), NewResident(0, 1, "ada", 10), Remove(0, 10, true), SetStatus(0, 10, false)]

  lemma ReinstatingMisleads()
    ensures !FlagsRight(Run(REINSTATING).register)
  {
    var a := REINSTATING;
    RunSteps(a, 0);
    RunSteps(a, 1);
    RunSteps(a, 2);
    RunSteps(a, 3);
    assert a[..0] == [] && Run([]) == EMPTY_OFFICE && a[..4] == a;
    hide Run;
    assert Run(a[..1]).register == EMPTY_FLAT;
    var ada := Resident(0, 1, "ada", Live);
    assert Run(a[..2]).register.apartments == map[1 := Apartment(0, true)] && Run(a[..2]).register.residents == map[10 := ada];
    var gone := map[10 := ada.(status := Removed)];
    assert Assigned(gone, 1) == {};
    assert Run(a[..3]).register.apartments == map[1 := Apartment(0, false)] && Run(a[..3]).register.residents == gone;
    assert 10 in Assigned(Run(a).register.residents, 1);
  }

  /** Two invites for one apartment created at once: both supersede what is there before either is written. */
  const CROSSING: seq<Action> := [
    NewApartment(0, 1), StartInvite(5, 0, 1, "ada"), StartInvite(6, 0, 1, "obi"), Supersede(5), Supersede(6),
    FinishInvite(5, 1, "first", 0), FinishInvite(6, 2, "second", 0)]

  lemma BothStarted()
    ensures Run(CROSSING[..3]) == Office(EMPTY_FLAT, map[5 := Inviting(0, 1, "ada", false), 6 := Inviting(0, 1, "obi", false)])
  {
    var a := CROSSING;
    RunSteps(a, 0);
    RunSteps(a, 1);
    RunSteps(a, 2);
    assert a[..0] == [] && Run([]) == EMPTY_OFFICE;
    hide Run;
    assert Run(a[..1]) == Office(EMPTY_FLAT, map[]);
  }

  lemma SupersedesNothing(pending: map<RequestId, Pending>, request: RequestId)
    requires request in pending && pending[request].Inviting? && !pending[request].superseded
    ensures Step(Office(EMPTY_FLAT, pending), Supersede(request))
            == Office(EMPTY_FLAT, pending[request := pending[request].(superseded := true)])
  {
    assert Superseded(map[], pending[request].apartment) == map[];
  }

  lemma BothSuperseded()
    ensures Run(CROSSING[..5]) == Office(EMPTY_FLAT, map[5 := Inviting(0, 1, "ada", true), 6 := Inviting(0, 1, "obi", true)])
  {
    var a := CROSSING;
    BothStarted();
    RunSteps(a, 3);
    RunSteps(a, 4);
    hide Run;
    var ada, obi := Inviting(0, 1, "ada", false), Inviting(0, 1, "obi", false);
    SupersedesNothing(map[5 := ada, 6 := obi], 5);
    SupersedesNothing(map[5 := ada.(superseded := true), 6 := obi], 6);
    hide Step;
    assert map[5 := ada, 6 := obi][5 := ada.(superseded := true)] == map[5 := ada.(superseded := true), 6 := obi];
    assert map[5 := ada.(superseded := true), 6 := obi][6 := obi.(superseded := true)]
           == map[5 := ada.(superseded := true), 6 := obi.(superseded := true)];
  }

  lemma CrossingInvites()
    ensures !OneLive(Run(CROSSING).register)
  {
    var a := CROSSING;
    BothSuperseded();
    RunSteps(a, 5);
    RunSteps(a, 6);
    assert a[..7] == a;
    hide Run, Superseded;
    var r := EMPTY_FLAT.(invites := map[1 := ADA_INVITE]);
    assert !LinkTaken(map[], "first");
    assert Run(a[..6]).register == r && Run(a[..6]).pending == map[6 := Inviting(0, 1, "obi", true)];
    assert "second" != "first" && !LinkTaken(r.invites, "second");
    hide LinkTaken;
    assert Run(a).register.invites[1].status == Run(a).register.invites[2].status == Open;
  }
}
