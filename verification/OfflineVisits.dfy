/** The visits that replay makes, against the log. */
module OfflineVisits {
  import opened Domain
  import opened Lists
  import opened GateLedger
  import opened GateOneTime
  import opened OfflineSync
  import opened OfflineRuns
  import M = GateMachine

  // ---- Deliveries whose handling is in some state ----

  function Hands(deliveries: map<DeliveryId, Delivery>, holds: Delivery -> bool): set<DeliveryId> {
    set d | d in deliveries && holds(deliveries[d])
  }

  function AsNumber(b: bool): nat {
    if b then 1 else 0
  }

  lemma HandsChange(deliveries: map<DeliveryId, Delivery>, d: DeliveryId, dl: Delivery, holds: Delivery -> bool)
    ensures |Hands(deliveries[d := dl], holds)|
            == |Hands(deliveries, holds)| - AsNumber(d in deliveries && holds(deliveries[d])) + AsNumber(holds(dl))
  {
    var before, after := Hands(deliveries, holds), Hands(deliveries[d := dl], holds);
    forall c
      ensures c in after <==> if c == d then holds(dl) else c in before
    {
      assert c != d && c in deliveries ==> deliveries[d := dl][c] == deliveries[c];
    }
    assert d in before <==> d in deliveries && holds(deliveries[d]);
    hide Hands;
    if holds(dl) {
      assert after == before + {d};
    } else {
      assert after == before - {d};
    }
  }

  lemma HandsLose(deliveries: map<DeliveryId, Delivery>, d: DeliveryId, holds: Delivery -> bool)
    ensures |Hands(deliveries - {d}, holds)| == |Hands(deliveries, holds)| - AsNumber(d in deliveries && holds(deliveries[d]))
  {
    assert Hands(deliveries - {d}, holds) == Hands(deliveries, holds) - {d};
  }

  // ---- What handlings know of the visits they made ----

  /** A visit was made exactly when an allowed event was acted on without an error. */
  predicate MadeWell(dl: Delivery) {
    (dl.phase.Entering? || dl.phase.Acted?) ==>
      dl.next < |dl.batch| &&
      var ev := dl.batch[dl.next];
      && (dl.phase.Entering? ==> ev.decision == ALLOWED)
      && (dl.phase.Acted? ==> (dl.phase.made.Some? <==> dl.phase.error.None? && ev.decision == ALLOWED))
  }

  ghost predicate Sound(w: World) {
    && (forall v :: v in w.replayed ==> v < |w.server.db.visits|)
    && (forall d :: d in w.deliveries ==> MadeWell(w.deliveries[d]))
  }

  function VisitsAbout(visits: seq<Visit>, ids: set<VisitId>, about: InvitationId -> bool): set<VisitId> {
    set v | v in ids && v < |visits| && about(visits[v].invitation)
  }

  predicate SyncedAllow(row: LogRow, about: InvitationId -> bool) {
    row.status == SYNCED && row.event.decision == ALLOWED && about(row.event.invitation)
  }

  function AllowedRows(log: map<EventId, LogRow>, about: InvitationId -> bool): set<EventId> {
    set id | id in log && SyncedAllow(log[id], about)
  }

  /** A visit made and not yet logged. */
  predicate HasVisit(dl: Delivery, about: InvitationId -> bool) {
    dl.phase.Acted? && dl.phase.made.Some? && dl.next < |dl.batch| && about(dl.batch[dl.next].invitation)
  }

  function HoldsVisit(about: InvitationId -> bool): Delivery -> bool {
    dl => HasVisit(dl, about)
  }

  /** A visit was made, but its event gets no SYNCED row from this handling: it stops, or the row it writes says FAILED. */
  predicate LosesVisit(w: World, a: Action, about: InvitationId -> bool) {
    (a.Stop? || (a.WriteLog? && AtEvent(w, a.delivery) && (a.refused || Current(w, a.delivery).id in w.server.log)))
    && a.delivery in w.deliveries && HasVisit(w.deliveries[a.delivery], about)
  }

  /** How many visits a run has lost in that way. */
  ghost function LostVisits(actions: seq<Action>, zone: Time -> int, about: InvitationId -> bool): nat {
    if actions == [] then 0
    else
      var front := actions[..|actions| - 1];
      LostVisits(front, zone, about) + AsNumber(LosesVisit(Run(front, zone), actions[|actions| - 1], about))
  }

  ghost predicate Counted(w: World, about: InvitationId -> bool, lost: nat) {
    Sound(w)
    && |VisitsAbout(w.server.db.visits, w.replayed, about)|
       == |AllowedRows(w.server.log, about)| + |Hands(w.deliveries, HoldsVisit(about))| + lost
  }

  ghost predicate VisitsKept(visits: seq<Visit>, visits': seq<Visit>) {
    |visits| <= |visits'| && forall v :: 0 <= v < |visits| ==> visits'[v].invitation == visits[v].invitation
  }

  lemma SameVisitsAbout(visits: seq<Visit>, visits': seq<Visit>, ids: set<VisitId>, about: InvitationId -> bool)
    requires VisitsKept(visits, visits') && forall v :: v in ids ==> v < |visits|
    ensures VisitsAbout(visits', ids, about) == VisitsAbout(visits, ids, about)
  {
  }

  /** One delivery moves on, and no visit or row is added. */
  lemma MovingOnKeepsCounted(w: World, w': World, d: DeliveryId, about: InvitationId -> bool, lost: nat)
    requires Counted(w, about, lost) && (w'.server, w'.replayed) == (w.server, w.replayed)
    requires d in w'.deliveries && w'.deliveries == w.deliveries[d := w'.deliveries[d]] && MadeWell(w'.deliveries[d])
    requires !(d in w.deliveries && HasVisit(w.deliveries[d], about)) && !HasVisit(w'.deliveries[d], about)
    ensures Counted(w', about, lost)
  {
    HandsChange(w.deliveries, d, w'.deliveries[d], HoldsVisit(about));
    hide MadeWell, HasVisit, VisitsAbout, AllowedRows, Hands;
  }

  /** A handling ends without a row, and its visit, if it had made one, is lost. */
  lemma EndingKeepsCounted(w: World, w': World, d: DeliveryId, about: InvitationId -> bool, lost: nat)
    requires Counted(w, about, lost) && (w'.server, w'.replayed) == (w.server, w.replayed) && w'.deliveries == w.deliveries - {d}
    ensures Counted(w', about, lost + AsNumber(d in w.deliveries && HasVisit(w.deliveries[d], about)))
  {
    HandsLose(w.deliveries, d, HoldsVisit(about));
    hide MadeWell, HasVisit, VisitsAbout, AllowedRows, Hands;
  }

  lemma BegunKeepsCounted(w: World, d: DeliveryId, about: InvitationId -> bool, lost: nat)
    requires Counted(w, about, lost) && AtEvent(w, d) && w.deliveries[d].phase.Unseen?
    ensures Counted(Begun(w, d), about, lost)
  {
    var w' := Begun(w, d);
    BegunIsPhase(w, d);
    assert MadeWell(w'.deliveries[d]) && w'.replayed == w.replayed && !HasVisit(w'.deliveries[d], about);
    hide Begun, Counted;
    MovingOnKeepsCounted(w, w', d, about, lost);
  }

  lemma CommitAddsOneVisit(db: Ledger, id: InvitationId, policy: EntryPolicy)
    requires id in db.invitations
    ensures var (db', r) := CommitEntry(db, id, policy);
      && (r.Ok? ==> r.value == |db.visits|)
      && db'.visits == if r.Ok? then db.visits + [Visit(id, Some(db.clock), None)] else db.visits
  {
  }

  lemma EnteredKeepsCounted(w: World, d: DeliveryId, about: InvitationId -> bool, lost: nat)
    requires Counted(w, about, lost) && MayEnter(w, d)
    ensures Counted(Entered(w, d), about, lost)
  {
    var w', ev := Entered(w, d), Current(w, d);
    var visits, visits' := w.server.db.visits, w'.server.db.visits;
    CommitAddsOneVisit(w.server.db, ev.invitation, w.deliveries[d].phase.policy);
    EnteredIsPhase(w, d);
    assert MadeWell(w.deliveries[d]) && MadeWell(w'.deliveries[d]);
    assert w'.deliveries == w.deliveries[d := w'.deliveries[d]];
    hide CommitEntry;
    SameVisitsAbout(visits, visits', w.replayed, about);
    HandsChange(w.deliveries, d, w'.deliveries[d], HoldsVisit(about));
    var made := w'.deliveries[d].phase.made;
    assert !HasVisit(w.deliveries[d], about) && (HasVisit(w'.deliveries[d], about) <==> made.Some? && about(ev.invitation));
    if made.Some? {
      assert w'.replayed == w.replayed + {|visits|} && visits'[|visits|].invitation == ev.invitation;
      OneMoreVisit(visits', w.replayed, |visits|, about);
    } else {
      assert w'.replayed == w.replayed;
    }
    hide MadeWell, HasVisit, VisitsAbout, AllowedRows, Hands, Entered;
  }

  lemma OneMoreVisit(visits: seq<Visit>, ids: set<VisitId>, v: VisitId, about: InvitationId -> bool)
    requires v < |visits| && v !in ids
    ensures |VisitsAbout(visits, ids + {v}, about)| == |VisitsAbout(visits, ids, about)| + AsNumber(about(visits[v].invitation))
  {
    assert VisitsAbout(visits, ids + {v}, about) == VisitsAbout(visits, ids, about) + if about(visits[v].invitation) then {v} else {};
  }

  lemma OneMoreRow(log: map<EventId, LogRow>, id: EventId, row: LogRow, about: InvitationId -> bool)
    requires id !in log
    ensures |AllowedRows(log[id := row], about)| == |AllowedRows(log, about)| + AsNumber(SyncedAllow(row, about))
  {
    hide SyncedAllow;
    assert AllowedRows(log[id := row], about) == AllowedRows(log, about) + if SyncedAllow(row, about) then {id} else {};
  }

  lemma LoggedKeepsCounted(w: World, d: DeliveryId, refused: bool, about: InvitationId -> bool, lost: nat)
    requires Counted(w, about, lost) && AtEvent(w, d) && w.deliveries[d].phase.Acted?
    ensures Counted(Logged(w, d, refused), about, lost + AsNumber(LosesVisit(w, WriteLog(d, refused), about)))
  {
    assert MadeWell(w.deliveries[d]);
    if CannotLog(w, d, refused) {
      EndingKeepsCounted(w, Logged(w, d, refused), d, about, lost);
    } else {
      var w', ev := Logged(w, d, refused), Current(w, d);
      HandsChange(w.deliveries, d, w'.deliveries[d], HoldsVisit(about));
      OneMoreRow(w.server.log, ev.id, w'.server.log[ev.id], about);
      assert MadeWell(w'.deliveries[d]);
      hide VisitsAbout, AllowedRows, Hands;
    }
  }

  /** The online half changes neither deliveries nor the log, and no visit's invitation. */
  lemma ElsewhereKeepsCounted(w: World, w': World, about: InvitationId -> bool, lost: nat)
    requires Counted(w, about, lost) && VisitsKept(w.server.db.visits, w'.server.db.visits)
    requires (w'.server.log, w'.replayed, w'.deliveries) == (w.server.log, w.replayed, w.deliveries)
    ensures Counted(w', about, lost)
  {
    SameVisitsAbout(w.server.db.visits, w'.server.db.visits, w.replayed, about);
    hide MadeWell, VisitsAbout, AllowedRows, Hands;
  }

  lemma OnlineKeepsVisits(db: Ledger, requests: map<M.RequestId, M.Request>, a: M.Action, zone: Time -> int)
    ensures VisitsKept(db.visits, M.Step(M.Gate(db, requests), a, zone).db.visits)
  {
  }

  lemma AnswerKeepsCounted(w: World, d: DeliveryId, about: InvitationId -> bool, lost: nat)
    requires Counted(w, about, lost)
    ensures Counted(Replied(w, d), about, lost)
  {
    if Replied(w, d) != w { EndingKeepsCounted(w, Replied(w, d), d, about, lost); }
    hide Counted;
  }

  lemma StepKeepsCounted(w: World, a: Action, zone: Time -> int, about: InvitationId -> bool, lost: nat)
    requires Counted(w, about, lost)
    ensures Counted(Step(w, a, zone), about, lost + AsNumber(LosesVisit(w, a, about)))
  {
    hide Begun, Entered, Logged, Replied, Counted, Events, ListsQueue, ResultIds, M.Step;
    match a
    case Begin(d) => if AtEvent(w, d) && w.deliveries[d].phase.Unseen? { BegunKeepsCounted(w, d, about, lost); }
    case Enter(d) => if MayEnter(w, d) { EnteredKeepsCounted(w, d, about, lost); }
    case WriteLog(d, refused) =>
      if AtEvent(w, d) && w.deliveries[d].phase.Acted? { LoggedKeepsCounted(w, d, refused, about, lost); }
    case LookUp(d) =>
      if AtEvent(w, d) && w.deliveries[d].phase.Waiting? { MovingOnKeepsCounted(w, LookedUp(w, d), d, about, lost); }
    case Deliver(d, estate, batch) =>
      if Started(w, d, estate, batch) != w { MovingOnKeepsCounted(w, Started(w, d, estate, batch), d, about, lost); }
    case Answer(d) => AnswerKeepsCounted(w, d, about, lost);
    case Stop(d) => EndingKeepsCounted(w, Step(w, a, zone), d, about, lost);
    case Online(action) =>
      OnlineKeepsVisits(w.server.db, w.requests, action, zone);
      ElsewhereKeepsCounted(w, Step(w, a, zone), about, lost);
    case Enqueue(ev) => ElsewhereKeepsCounted(w, Enqueued(w, ev), about, lost);
    case Send(_) => ElsewhereKeepsCounted(w, Step(w, a, zone), about, lost);
    case Receive(_) => ElsewhereKeepsCounted(w, Step(w, a, zone), about, lost);
  }

  lemma {:induction false} RunKeepsCounted(actions: seq<Action>, zone: Time -> int, about: InvitationId -> bool)
    ensures Counted(Run(actions, zone), about, LostVisits(actions, zone, about))
  {
    if actions != [] {
      var front := actions[..|actions| - 1];
      RunKeepsCounted(front, zone, about);
      StepKeepsCounted(Run(front, zone), actions[|actions| - 1], zone, about, LostVisits(front, zone, about));
      hide Step, Counted, LosesVisit;
    } else {
      assert VisitsAbout([], {}, about) == {} && AllowedRows(map[], about) == {} && Hands(map[], HoldsVisit(about)) == {};
    }
  }

  /**
   * In every run and for any group of invitations: the visits made by replay are as many as the SYNCED ALLOWED rows, the
   * visits whose handling has yet to write its row, and the visits lost.
   */
  lemma ReplayedVisitsMatchLog(actions: seq<Action>, zone: Time -> int, about: InvitationId -> bool)
    ensures var w := Run(actions, zone);
      |VisitsAbout(w.server.db.visits, w.replayed, about)|
      == |AllowedRows(w.server.log, about)| + |Hands(w.deliveries, HoldsVisit(about))| + LostVisits(actions, zone, about)
  {
    RunKeepsCounted(actions, zone, about);
  }

  ghost predicate NoneLost(actions: seq<Action>, zone: Time -> int, about: InvitationId -> bool) {
    forall k :: 0 <= k < |actions| ==> !LosesVisit(Run(actions[..k], zone), actions[k], about)
  }

  lemma NoneLostSplits(actions: seq<Action>, zone: Time -> int, about: InvitationId -> bool)
    requires actions != []
    ensures var front, a := actions[..|actions| - 1], actions[|actions| - 1];
      NoneLost(actions, zone, about) <==> NoneLost(front, zone, about) && !LosesVisit(Run(front, zone), a, about)
  {
    hide Run, LosesVisit;
    var front := actions[..|actions| - 1];
    forall k | 0 <= k < |front|
      ensures actions[..k] == front[..k] && actions[k] == front[k]
    {
    }
    assert actions[..|front|] == front;
  }

  lemma {:induction false} NoneLostExactly(actions: seq<Action>, zone: Time -> int, about: InvitationId -> bool)
    ensures LostVisits(actions, zone, about) == 0 <==> NoneLost(actions, zone, about)
  {
    if actions != [] {
      NoneLostSplits(actions, zone, about);
      hide Run, LosesVisit, NoneLost;
      NoneLostExactly(actions[..|actions| - 1], zone, about);
    }
  }

  /** No handling is between its effect and its log row. */
  ghost predicate AtRest(w: World) {
    forall d :: d in w.deliveries ==> !w.deliveries[d].phase.Acted?
  }

  /** So when no handling is between its effect and its row, the two are as many if and only if no action lost a visit. */
  lemma VisitsMatchAtRest(actions: seq<Action>, zone: Time -> int, about: InvitationId -> bool)
    requires AtRest(Run(actions, zone))
    ensures var w := Run(actions, zone);
      |VisitsAbout(w.server.db.visits, w.replayed, about)| == |AllowedRows(w.server.log, about)| <==> NoneLost(actions, zone, about)
  {
    ReplayedVisitsMatchLog(actions, zone, about);
    NoneLostExactly(actions, zone, about);
    assert Hands(Run(actions, zone).deliveries, HoldsVisit(about)) == {};
    hide NoneLost, LostVisits, Run;
  }

  // ---- One-time use, online or offline ----

  ghost predicate EntersRightly(dl: Delivery, rows: map<InvitationId, Invitation>) {
    dl.phase.Entering? ==> dl.next < |dl.batch| && Remembers(M.EntryRequest(dl.batch[dl.next].invitation, dl.phase.policy), rows)
  }

  ghost predicate GateInv(w: World) {
    && Inv(M.Gate(w.server.db, w.requests))
    && forall d :: d in w.deliveries ==> EntersRightly(w.deliveries[d], w.server.db.invitations)
  }

  lemma CommitKeepsInv(db: Ledger, requests: map<M.RequestId, M.Request>, id: InvitationId, policy: EntryPolicy)
    requires Inv(M.Gate(db, requests)) && Remembers(M.EntryRequest(id, policy), db.invitations)
    ensures RowsEvolve(db.invitations, CommitEntry(db, id, policy).0.invitations)
    ensures Inv(M.Gate(CommitEntry(db, id, policy).0, requests))
  {
    var g, db' := M.Gate(db, requests), CommitEntry(db, id, policy).0;
    var alone := M.Gate(db, map[0 := M.EntryRequest(id, policy)]);
    CommittedEntryEvolves(db, id, policy);
    StepAdmitsOnce(alone, M.FinishEntry(0), t => 0);
    assert M.Step(alone, M.FinishEntry(0), t => 0).db == db';
    forall r | r in requests
      ensures Remembers(requests[r], db'.invitations)
    {
      StillRemembers(requests[r], db.invitations, db'.invitations);
    }
    hide CommitEntry, M.Step;
    EvolutionKeepsInv(g, M.Gate(db', requests));
  }

  lemma RowsEvolvingKeepEntering(dl: Delivery, rows: map<InvitationId, Invitation>, rows': map<InvitationId, Invitation>)
    requires EntersRightly(dl, rows) && RowsEvolve(rows, rows')
    ensures EntersRightly(dl, rows')
  {
  }

  lemma EnteredKeepsGateInv(w: World, d: DeliveryId)
    requires GateInv(w) && MayEnter(w, d)
    ensures GateInv(Entered(w, d))
  {
    assert EntersRightly(w.deliveries[d], w.server.db.invitations);
    CommitKeepsInv(w.server.db, w.requests, Current(w, d).invitation, w.deliveries[d].phase.policy);
    var w' := Entered(w, d);
    forall c | c in w'.deliveries
      ensures EntersRightly(w'.deliveries[c], w'.server.db.invitations)
    {
      if c != d { RowsEvolvingKeepEntering(w.deliveries[c], w.server.db.invitations, w'.server.db.invitations); }
    }
    hide Inv, EntersRightly, CommitEntry;
  }

  lemma BegunKeepsGateInv(w: World, d: DeliveryId)
    requires GateInv(w) && AtEvent(w, d) && w.deliveries[d].phase.Unseen?
    ensures GateInv(Begun(w, d))
  {
    hide Inv, DenyEntry;
  }

  lemma OnlineKeepsGateInv(w: World, a: M.Action, zone: Time -> int)
    requires GateInv(w)
    ensures GateInv(Step(w, Online(a), zone))
  {
    StepKeepsInv(M.Gate(w.server.db, w.requests), a, zone);
    StepEvolvesRows(M.Gate(w.server.db, w.requests), a, zone);
    var rows' := Step(w, Online(a), zone).server.db.invitations;
    forall d | d in w.deliveries
      ensures EntersRightly(w.deliveries[d], rows')
    {
      RowsEvolvingKeepEntering(w.deliveries[d], w.server.db.invitations, rows');
    }
    hide Inv, EntersRightly, M.Step;
  }

  lemma StepKeepsGateInv(w: World, a: Action, zone: Time -> int)
    requires GateInv(w)
    ensures GateInv(Step(w, a, zone))
  {
    hide Begun, Entered, Inv, Events, ListsQueue, ResultIds, M.Step;
    match a
    case Begin(d) => if AtEvent(w, d) && w.deliveries[d].phase.Unseen? { BegunKeepsGateInv(w, d); }
    case Enter(d) => if MayEnter(w, d) { EnteredKeepsGateInv(w, d); }
    case Online(action) => OnlineKeepsGateInv(w, action, zone);
    case _ =>
  }

  lemma {:induction false} RunKeepsGateInv(actions: seq<Action>, zone: Time -> int)
    ensures GateInv(Run(actions, zone))
  {
    if actions != [] {
      RunKeepsGateInv(actions[..|actions| - 1], zone);
      StepKeepsGateInv(Run(actions[..|actions| - 1], zone), actions[|actions| - 1], zone);
      hide Step, GateInv;
    }
  }

  /**
   * Whether decided at the gate or replayed later, with every step of every handling interleaved with everything else:
   * a ONE_TIME pass has at most one visit.
   */
  lemma OneTimeAcrossReplay(actions: seq<Action>, zone: Time -> int, id: InvitationId)
    requires var db := Run(actions, zone).server.db; id in db.invitations && db.invitations[id].policy == ONE_TIME
    ensures |VisitsOf(Run(actions, zone).server.db, id)| <= 1
  {
    RunKeepsGateInv(actions, zone);
    AtMostOneVisit(M.Gate(Run(actions, zone).server.db, Run(actions, zone).requests), id);
  }
}
