/** How often each event is acted on, and when that is once; and a batch handled without interruption. */
module OfflineOnce {
  import opened Domain
  import opened Lists
  import opened GateLedger
  import opened OfflineSync
  import opened OfflineRuns
  import opened OfflineVisits
  import opened GateExpiry
  import M = GateMachine

  // ---- How often an event is acted on ----

  /** Acting on the event has had its effect, and its row is not written yet. */
  predicate HasActedOn(dl: Delivery, id: EventId) {
    dl.phase.Acted? && dl.next < |dl.batch| && dl.batch[dl.next].id == id
  }

  function ActedAt(id: EventId): Delivery -> bool {
    dl => HasActedOn(dl, id)
  }

  /** A handling that has acted on its event ends without a row: it stops, or no row can be written. */
  predicate Drops(w: World, a: Action) {
    (a.Stop? || a.WriteLog?) && AtEvent(w, a.delivery) && w.deliveries[a.delivery].phase.Acted?
    && (a.WriteLog? ==> CannotLog(w, a.delivery, a.refused))
  }

  predicate DropsEvent(w: World, a: Action, id: EventId) {
    Drops(w, a) && Current(w, a.delivery).id == id
  }

  /** How many handlings of an event a run has dropped. */
  ghost function Dropped(actions: seq<Action>, zone: Time -> int, id: EventId): nat {
    if actions == [] then 0
    else
      var front := actions[..|actions| - 1];
      Dropped(front, zone, id) + AsNumber(DropsEvent(Run(front, zone), actions[|actions| - 1], id))
  }

  ghost predicate Tallied(w: World, id: EventId, dropped: nat) {
    multiset(w.applied)[id] == AsNumber(id in w.server.log) + |Hands(w.deliveries, ActedAt(id))| + dropped
  }

  /** One delivery moves on without acting. */
  lemma MovingOnKeepsTallied(w: World, w': World, d: DeliveryId, id: EventId, dropped: nat)
    requires Tallied(w, id, dropped) && (w'.server.log, w'.applied) == (w.server.log, w.applied)
    requires d in w'.deliveries && w'.deliveries == w.deliveries[d := w'.deliveries[d]]
    requires !(d in w.deliveries && w.deliveries[d].phase.Acted?) && !w'.deliveries[d].phase.Acted?
    ensures Tallied(w', id, dropped)
  {
    HandsChange(w.deliveries, d, w'.deliveries[d], ActedAt(id));
    hide Hands;
  }

  lemma ActingKeepsTallied(w: World, w': World, d: DeliveryId, id: EventId, dropped: nat)
    requires Tallied(w, id, dropped) && AtEvent(w, d) && !w.deliveries[d].phase.Acted?
    requires d in w'.deliveries && w'.deliveries[d].phase.Acted?
    requires w'.deliveries == w.deliveries[d := w.deliveries[d].(phase := w'.deliveries[d].phase)]
    requires w'.server.log == w.server.log && w'.applied == w.applied + [Current(w, d).id]
    ensures Tallied(w', id, dropped)
  {
    assert w'.deliveries[d] == w.deliveries[d].(phase := w'.deliveries[d].phase);
    HandsChange(w.deliveries, d, w'.deliveries[d], ActedAt(id));
    hide Hands;
  }

  lemma EndingKeepsTallied(w: World, w': World, d: DeliveryId, id: EventId, dropped: nat)
    requires Tallied(w, id, dropped) && (w'.server.log, w'.applied) == (w.server.log, w.applied) && w'.deliveries == w.deliveries - {d}
    ensures Tallied(w', id, dropped + AsNumber(d in w.deliveries && HasActedOn(w.deliveries[d], id)))
  {
    HandsLose(w.deliveries, d, ActedAt(id));
    hide Hands;
  }

  lemma BeginKeepsTallied(w: World, d: DeliveryId, id: EventId, dropped: nat)
    requires Tallied(w, id, dropped) && AtEvent(w, d) && w.deliveries[d].phase.Unseen?
    ensures Tallied(Begun(w, d), id, dropped)
  {
    var w' := Begun(w, d);
    BegunIsPhase(w, d);
    if w'.deliveries[d].phase.Acted? {
      assert w'.applied == w.applied + [Current(w, d).id];
      hide Begun, Tallied;
      ActingKeepsTallied(w, w', d, id, dropped);
    } else {
      assert w'.applied == w.applied;
      hide Begun, Tallied;
      MovingOnKeepsTallied(w, w', d, id, dropped);
    }
  }

  lemma EnterKeepsTallied(w: World, d: DeliveryId, id: EventId, dropped: nat)
    requires Tallied(w, id, dropped) && MayEnter(w, d)
    ensures Tallied(Entered(w, d), id, dropped)
  {
    EnteredIsPhase(w, d);
    hide CommitEntry, Tallied;
    ActingKeepsTallied(w, Entered(w, d), d, id, dropped);
  }

  lemma LogKeepsTallied(w: World, d: DeliveryId, refused: bool, id: EventId, dropped: nat)
    requires Tallied(w, id, dropped) && AtEvent(w, d) && w.deliveries[d].phase.Acted?
    ensures Tallied(Logged(w, d, refused), id, dropped + AsNumber(DropsEvent(w, WriteLog(d, refused), id)))
  {
    var w' := Logged(w, d, refused);
    if CannotLog(w, d, refused) {
      EndingKeepsTallied(w, w', d, id, dropped);
    } else {
      HandsChange(w.deliveries, d, w'.deliveries[d], ActedAt(id));
    }
    hide Hands;
  }

  lemma AnswerKeepsTallied(w: World, d: DeliveryId, id: EventId, dropped: nat)
    requires Tallied(w, id, dropped)
    ensures Tallied(Replied(w, d), id, dropped)
  {
    if Replied(w, d) != w { EndingKeepsTallied(w, Replied(w, d), d, id, dropped); }
    hide Tallied;
  }

  lemma StepKeepsTallied(w: World, a: Action, zone: Time -> int, id: EventId, dropped: nat)
    requires Tallied(w, id, dropped)
    ensures Tallied(Step(w, a, zone), id, dropped + AsNumber(DropsEvent(w, a, id)))
  {
    hide Begun, Entered, Logged, Replied, Tallied, Events, ListsQueue, ResultIds;
    match a
    case LookUp(d) => if AtEvent(w, d) && w.deliveries[d].phase.Waiting? { MovingOnKeepsTallied(w, LookedUp(w, d), d, id, dropped); }
    case Begin(d) => if AtEvent(w, d) && w.deliveries[d].phase.Unseen? { BeginKeepsTallied(w, d, id, dropped); }
    case Enter(d) => if MayEnter(w, d) { EnterKeepsTallied(w, d, id, dropped); }
    case WriteLog(d, refused) => if AtEvent(w, d) && w.deliveries[d].phase.Acted? { LogKeepsTallied(w, d, refused, id, dropped); }
    case Answer(d) => AnswerKeepsTallied(w, d, id, dropped);
    case Stop(d) => EndingKeepsTallied(w, Step(w, a, zone), d, id, dropped);
    case Deliver(d, estate, batch) =>
      if Started(w, d, estate, batch) != w { MovingOnKeepsTallied(w, Started(w, d, estate, batch), d, id, dropped); }
    case Enqueue(ev) => SameKeepsTallied(w, Enqueued(w, ev), id, dropped);
    case _ => SameKeepsTallied(w, Step(w, a, zone), id, dropped);
  }

  lemma SameKeepsTallied(w: World, w': World, id: EventId, dropped: nat)
    requires Tallied(w, id, dropped) && (w'.deliveries, w'.server.log, w'.applied) == (w.deliveries, w.server.log, w.applied)
    ensures Tallied(w', id, dropped)
  {
  }

  /**
   * In every run, an event has been acted on once if it is logged, once for every handling that has yet to write its row,
   * and once for every handling dropped.
   */
  lemma {:induction false} ActedOnExactly(actions: seq<Action>, zone: Time -> int, id: EventId)
    ensures var w := Run(actions, zone);
      multiset(w.applied)[id] == AsNumber(id in w.server.log) + |Hands(w.deliveries, ActedAt(id))| + Dropped(actions, zone, id)
  {
    if actions != [] {
      var front := actions[..|actions| - 1];
      ActedOnExactly(front, zone, id);
      StepKeepsTallied(Run(front, zone), actions[|actions| - 1], zone, id, Dropped(front, zone, id));
      hide Step, Hands, DropsEvent;
    } else {
      assert Hands(map[], ActedAt(id)) == {};
    }
  }

  ghost predicate NothingDropped(actions: seq<Action>, zone: Time -> int) {
    forall k :: 0 <= k < |actions| ==> !Drops(Run(actions[..k], zone), actions[k])
  }

  ghost predicate NoneDropped(actions: seq<Action>, zone: Time -> int) {
    forall id :: Dropped(actions, zone, id) == 0
  }

  lemma NothingDroppedSplits(actions: seq<Action>, zone: Time -> int)
    requires actions != []
    ensures var front, a := actions[..|actions| - 1], actions[|actions| - 1];
      NothingDropped(actions, zone) <==> NothingDropped(front, zone) && !Drops(Run(front, zone), a)
  {
    hide Run, Drops;
    var front := actions[..|actions| - 1];
    forall k | 0 <= k < |front|
      ensures actions[..k] == front[..k] && actions[k] == front[k]
    {
    }
    assert actions[..|front|] == front;
  }

  lemma NoneDroppedSplits(actions: seq<Action>, zone: Time -> int)
    requires actions != []
    ensures var front, a := actions[..|actions| - 1], actions[|actions| - 1];
      NoneDropped(actions, zone) <==> NoneDropped(front, zone) && !Drops(Run(front, zone), a)
  {
    var front, a := actions[..|actions| - 1], actions[|actions| - 1];
    var w := Run(front, zone);
    forall id
      ensures Dropped(actions, zone, id) == Dropped(front, zone, id) + AsNumber(DropsEvent(w, a, id))
    {
    }
    if Drops(w, a) {
      assert DropsEvent(w, a, Current(w, a.delivery).id);
      assert Dropped(actions, zone, Current(w, a.delivery).id) != 0;
    }
    hide Run, Drops, Dropped;
  }

  lemma {:induction false} DroppedSome(actions: seq<Action>, zone: Time -> int)
    ensures NoneDropped(actions, zone) <==> NothingDropped(actions, zone)
  {
    if actions != [] {
      NothingDroppedSplits(actions, zone);
      NoneDroppedSplits(actions, zone);
      hide Run, Drops, NoneDropped, NothingDropped;
      DroppedSome(actions[..|actions| - 1], zone);
    }
  }

  /**
   * When no handling is between its effect and its row: each logged event was acted on once and no other at all, exactly
   * when nothing was dropped.
   */
  lemma ActedOnOnce(actions: seq<Action>, zone: Time -> int)
    requires AtRest(Run(actions, zone))
    ensures var w := Run(actions, zone);
      multiset(w.applied) == multiset(w.server.log.Keys) <==> NothingDropped(actions, zone)
  {
    var w := Run(actions, zone);
    DroppedSome(actions, zone);
    hide NothingDropped, Run;
    forall id
      ensures multiset(w.applied)[id] == multiset(w.server.log.Keys)[id] + Dropped(actions, zone, id)
    {
      ActedOnExactly(actions, zone, id);
      assert Hands(w.deliveries, ActedAt(id)) == {};
      assert multiset(w.server.log.Keys)[id] == AsNumber(id in w.server.log.Keys);
    }
    hide Dropped;
  }

  // ---- When two handlings of one event do overlap ----

  /** Two deliveries are up at one allowed event of a ONE_TIME pass that is still good. */
  predicate BothUp(w: World, c: DeliveryId, d: DeliveryId) {
    && AtEvent(w, c) && AtEvent(w, d) && c != d && w.deliveries[c].phase.Waiting? && w.deliveries[d].phase.Waiting?
    && Current(w, c) == Current(w, d) && Current(w, c).decision == ALLOWED && Current(w, c).id !in w.server.log
    && Current(w, c).invitation in w.server.db.invitations
    && var row := w.server.db.invitations[Current(w, c).invitation];
      row.estate == w.deliveries[c].estate == w.deliveries[d].estate && row.policy == ONE_TIME && row.status == ACTIVE
      && w.server.db.clock <= row.validUntil && !HasOpenVisit(w.server.db.visits, Current(w, c).invitation)
  }

  function BothLookedUp(w: World, c: DeliveryId, d: DeliveryId): World
    requires BothUp(w, c, d)
  {
    LookedUp(LookedUp(w, c), d)
  }

  /** The visit stands, the event's row says FAILED, and it was acted on twice. */
  predicate PlayedOut(w: World, after: World, c: DeliveryId, d: DeliveryId)
    requires BothUp(w, c, d)
  {
    var ev := Current(w, c);
    && after.server.log == w.server.log[ev.id := LogRow(ev, FAILED)] && after.deliveries.Keys == w.deliveries.Keys - {c}
    && d in after.deliveries && after.deliveries[d].phase.Waiting?
    && after.applied == w.applied + [ev.id] + [ev.id] && after.replayed == w.replayed + {|w.server.db.visits|}
    && after.server.db.visits == w.server.db.visits + [Visit(ev.invitation, Some(w.server.db.clock), None)]
  }

  /** The first one enters, the second is refused and logs FAILED, and the first can then no longer log what it did. */
  lemma OverlapPlaysOut(w: World, c: DeliveryId, d: DeliveryId)
    requires BothUp(w, c, d)
    ensures var w1 := BothLookedUp(w, c, d);
      AtEvent(w1, c) && w1.deliveries[c].phase.Unseen? &&
      var w2 := Begun(w1, c);
      MayEnter(w2, c) &&
      var w3 := Entered(w2, c);
      AtEvent(w3, d) && w3.deliveries[d].phase.Unseen? &&
      var w4 := Begun(w3, d);
      MayEnter(w4, d) &&
      var w5 := Entered(w4, d);
      AtEvent(w5, d) && w5.deliveries[d].phase.Acted? &&
      var w6 := Logged(w5, d, false);
      AtEvent(w6, c) && w6.deliveries[c].phase.Acted? &&
      PlayedOut(w, Logged(w6, c, false), c, d)
  {
    var ev := Current(w, c);
    var w3 := Entered(Begun(BothLookedUp(w, c, d), c), c);
    assert w3.server.db.visits == w.server.db.visits + [Visit(ev.invitation, Some(w.server.db.clock), None)];
    assert w3.server.db.invitations[ev.invitation].status == USED;
    hide HasOpenVisit;
  }

  /** One queued allow, delivered twice: its first answer was slow and the device tried again. */
  const RETRIED: seq<Action> := [
    Online(M.Create(0, TEN_MINUTE_PASS)), Enqueue(AN_ALLOW), Send([7]), Deliver(1, 0, [AN_ALLOW]), Deliver(2, 0, [AN_ALLOW])]

  lemma RunAppends(actions: seq<Action>, a: Action, zone: Time -> int)
    ensures Run(actions + [a], zone) == Step(Run(actions, zone), a, zone)
  {
    assert (actions + [a])[..|actions|] == actions;
  }

  lemma QueuedAllow(zone: Time -> int)
    ensures var w := Run(RETRIED[..2], zone);
      w == EMPTY_WORLD.(server := w.server, queue := map[7 := AN_ALLOW], enqueued := map[7 := AN_ALLOW])
      && w.server.log == map[] && w.server.db.clock == 0 && w.server.db.visits == []
      && w.server.db.invitations == map[0 := Invitation(0, 0, "token", "code", 0, 10 * MINUTE_MS, ACTIVE, ONE_TIME)]
  {
    RunAppends([], RETRIED[0], zone);
    RunAppends(RETRIED[..1], RETRIED[1], zone);
    assert [] + [RETRIED[0]] == RETRIED[..1] && RETRIED[..1] + [RETRIED[1]] == RETRIED[..2];
  }

  /** Two overlapping handlings are reached by a retry. */
  lemma RetriesCanOverlap(zone: Time -> int)
    ensures BothUp(Run(RETRIED, zone), 1, 2) && Run(RETRIED, zone).deliveries.Keys == {1, 2}
    ensures var w := Run(RETRIED, zone);
      && w.applied == [] && w.replayed == {} && w.server.log == map[] && w.server.db.visits == [] && w.server.db.clock == 0
      && Current(w, 1) == AN_ALLOW
  {
    QueuedAllow(zone);
    var w := Run(RETRIED[..2], zone);
    RunAppends(RETRIED[..2], RETRIED[2], zone);
    RunAppends(RETRIED[..3], RETRIED[3], zone);
    RunAppends(RETRIED[..4], RETRIED[4], zone);
    assert RETRIED[..2] + [RETRIED[2]] == RETRIED[..3] && RETRIED[..3] + [RETRIED[3]] == RETRIED[..4];
    assert RETRIED[..4] + [RETRIED[4]] == RETRIED;
    hide Run;
    assert Elements([7]) == {7} && ListsQueue([7], w.queue);
    assert Events([7], w.queue) == [AN_ALLOW];
    hide ListsQueue, Elements, Events;
  }

  const MISLABELLED: seq<Action> := RETRIED + [
    LookUp(1), LookUp(2), Begin(1), Enter(1), Begin(2), Enter(2), WriteLog(2, false), WriteLog(1, false)]

  lemma TakesTwo(actions: seq<Action>, k: nat, n: nat, a: Action, b: Action, zone: Time -> int)
    requires n == k + 2 <= |actions| && actions[k] == a && actions[k + 1] == b
    ensures Run(actions[..n], zone) == Step(Step(Run(actions[..k], zone), a, zone), b, zone)
  {
    hide Step;
    assert actions[..n] == actions[..k] + [a] + [b];
    RunAppends(actions[..k], a, zone);
    RunAppends(actions[..k] + [a], b, zone);
    hide Run;
  }

  lemma MislabelledTwoByTwo(zone: Time -> int)
    ensures var s5, s7, s9, s11 :=
        Run(RETRIED, zone), Run(MISLABELLED[..7], zone), Run(MISLABELLED[..9], zone), Run(MISLABELLED[..11], zone);
      && s7 == Step(Step(s5, LookUp(1), zone), LookUp(2), zone)
      && s9 == Step(Step(s7, Begin(1), zone), Enter(1), zone)
      && s11 == Step(Step(s9, Begin(2), zone), Enter(2), zone)
      && Run(MISLABELLED, zone) == Step(Step(s11, WriteLog(2, false), zone), WriteLog(1, false), zone)
  {
    hide Run, Step;
    assert MISLABELLED[..5] == RETRIED && MISLABELLED[..13] == MISLABELLED;
    TakesTwo(MISLABELLED, 5, 7, LookUp(1), LookUp(2), zone);
    TakesTwo(MISLABELLED, 7, 9, Begin(1), Enter(1), zone);
    TakesTwo(MISLABELLED, 9, 11, Begin(2), Enter(2), zone);
    TakesTwo(MISLABELLED, 11, 13, WriteLog(2, false), WriteLog(1, false), zone);
  }

  lemma LookUpsTaken(w: World, c: DeliveryId, d: DeliveryId, zone: Time -> int)
    requires BothUp(w, c, d)
    ensures Step(Step(w, LookUp(c), zone), LookUp(d), zone) == BothLookedUp(w, c, d)
  {
    hide HasOpenVisit;
  }

  lemma EntryTaken(w: World, d: DeliveryId, zone: Time -> int)
    requires AtEvent(w, d) && w.deliveries[d].phase.Unseen? && MayEnter(Begun(w, d), d)
    ensures Step(Step(w, Begin(d), zone), Enter(d), zone) == Entered(Begun(w, d), d)
  {
    hide Begun, Entered;
  }

  lemma LogsTaken(w: World, c: DeliveryId, d: DeliveryId, zone: Time -> int)
    requires AtEvent(w, d) && w.deliveries[d].phase.Acted?
    requires var w' := Logged(w, d, false); AtEvent(w', c) && w'.deliveries[c].phase.Acted?
    ensures Step(Step(w, WriteLog(d, false), zone), WriteLog(c, false), zone) == Logged(Logged(w, d, false), c, false)
  {
    hide Logged;
  }

  lemma MislabelledPlaysOut(zone: Time -> int)
    requires BothUp(Run(RETRIED, zone), 1, 2)
    ensures PlayedOut(Run(RETRIED, zone), Run(MISLABELLED, zone), 1, 2)
  {
    hide Run, Step, BothLookedUp, Begun, Entered, Logged, PlayedOut, BothUp, AtEvent, MayEnter;
    MislabelledTwoByTwo(zone);
    var s := Run(RETRIED, zone);
    OverlapPlaysOut(s, 1, 2);
    LookUpsTaken(s, 1, 2, zone);
    var w1 := BothLookedUp(s, 1, 2);
    EntryTaken(w1, 1, zone);
    var w3 := Entered(Begun(w1, 1), 1);
    EntryTaken(w3, 2, zone);
    LogsTaken(Entered(Begun(w3, 2), 2), 1, 2, zone);
  }

  /** In the end the visit stands, the log says FAILED, and the event was acted on twice. */
  lemma OverlapMislabels(zone: Time -> int)
    ensures var w := Run(MISLABELLED, zone);
      && w.server.log == map[7 := LogRow(AN_ALLOW, FAILED)] && w.server.db.visits == [Visit(0, Some(0), None)]
      && w.replayed == {0} && w.applied == [7, 7] && AtRest(w)
  {
    hide Run, BothUp;
    RetriesCanOverlap(zone);
    MislabelledPlaysOut(zone);
  }

  // ---- A batch handled without interruption is the batch function ----

  /** Beginning and, if it comes to that, entering. */
  function Replayed(w: World, d: DeliveryId): World
    requires AtEvent(w, d) && w.deliveries[d].phase.Unseen?
    ensures AtEvent(Replayed(w, d), d) && Current(Replayed(w, d), d) == Current(w, d)
    ensures Replayed(w, d).deliveries[d].phase.Acted?
  {
    var w' := Begun(w, d);
    if w'.deliveries[d].phase.Entering? then Entered(w', d) else w'
  }

  lemma BegunIsCheck(w: World, d: DeliveryId)
    requires AtEvent(w, d) && w.deliveries[d].phase.Unseen?
    ensures var dl, ev, w' := w.deliveries[d], Current(w, d), Begun(w, d);
      && w'.server == w.server && AtEvent(w', d)
      && (ev.decision == DENIED ==>
            var r := DenyEntry(w.server.db, dl.estate, ev.invitation);
            w'.deliveries[d] == dl.(phase := Acted(if r.Ok? then None else Some(r.error), None)))
      && (ev.decision == ALLOWED ==>
            match CheckEntry(w.server.db, dl.estate, ev.invitation)
            case Err(e) => w'.deliveries[d] == dl.(phase := Acted(Some(e), None))
            case Ok(policy) => w'.deliveries[d] == dl.(phase := Entering(policy)))
  {
    hide DenyEntry, CheckEntry;
  }

  lemma EnteredIsCommit(w: World, d: DeliveryId)
    requires MayEnter(w, d)
    ensures var dl, ev, w' := w.deliveries[d], Current(w, d), Entered(w, d);
      var (db, r) := CommitEntry(w.server.db, ev.invitation, dl.phase.policy);
      && w'.server == w.server.(db := db) && d in w'.deliveries
      && w'.deliveries[d] == dl.(phase := Acted(if r.Ok? then None else Some(r.error), if r.Ok? then Some(r.value) else None))
  {
    hide CommitEntry;
  }

  lemma ReplayedIsReplay(w: World, d: DeliveryId)
    requires AtEvent(w, d) && w.deliveries[d].phase.Unseen?
    ensures var (db, error) := Replay(w.server.db, w.deliveries[d].estate, Current(w, d));
      var w' := Replayed(w, d);
      && w'.server == w.server.(db := db) && w'.deliveries[d].phase.error == error
      && w'.deliveries[d] == w.deliveries[d].(phase := w'.deliveries[d].phase)
  {
    var w1 := Begun(w, d);
    BegunIsCheck(w, d);
    if w1.deliveries[d].phase.Entering? {
      CheckedIsThere(w.server.db, w.deliveries[d].estate, Current(w, d).invitation);
      EnteredIsCommit(w1, d);
    }
    hide Begun, Entered, CommitEntry, CheckEntry, DenyEntry;
  }

  lemma CheckedIsThere(db: Ledger, estate: EstateId, id: InvitationId)
    ensures CheckEntry(db, estate, id).Ok? ==> id in db.invitations
  {
  }

  /** All the steps of one event, with nothing in between. */
  function Handled(w: World, d: DeliveryId): World
    requires AtEvent(w, d) && w.deliveries[d].phase.Waiting?
  {
    var w' := LookedUp(w, d);
    if w'.deliveries[d].phase.Waiting? then w' else Logged(Replayed(w', d), d, false)
  }

  lemma HandledIsSyncOne(w: World, d: DeliveryId)
    requires AtEvent(w, d) && w.deliveries[d].phase.Waiting?
    ensures var dl := w.deliveries[d];
      var (server, r) := SyncOne(w.server, dl.estate, Current(w, d));
      && Handled(w, d).server == server && d in Handled(w, d).deliveries
      && Handled(w, d).deliveries[d] == dl.(next := dl.next + 1, results := dl.results + [r])
  {
    var w' := LookedUp(w, d);
    if w'.deliveries[d].phase.Unseen? {
      ReplayedIsReplay(w', d);
      hide Replay, Replayed;
    }
  }

  predicate SameQueue(w: World, w': World) {
    (w'.queue, w'.sent, w'.replies) == (w.queue, w.sent, w.replies)
  }

  lemma ReplayingKeepsQueue(w: World, d: DeliveryId)
    requires AtEvent(w, d) && w.deliveries[d].phase.Unseen?
    ensures SameQueue(w, Replayed(w, d))
  {
    BegunIsPhase(w, d);
    var w' := Begun(w, d);
    hide Begun, Entered;
    if w'.deliveries[d].phase.Entering? {
      BegunIsCheck(w, d);
      CheckedIsThere(w.server.db, w.deliveries[d].estate, Current(w, d).invitation);
      EnteredKeepsQueue(w', d);
    }
  }

  lemma EnteredKeepsQueue(w: World, d: DeliveryId)
    requires MayEnter(w, d)
    ensures SameQueue(w, Entered(w, d))
  {
    EnteredIsPhase(w, d);
    hide Entered;
  }

  lemma HandlingKeepsQueue(w: World, d: DeliveryId)
    requires AtEvent(w, d) && w.deliveries[d].phase.Waiting?
    ensures SameQueue(w, Handled(w, d))
  {
    var w' := LookedUp(w, d);
    if w'.deliveries[d].phase.Unseen? {
      ReplayingKeepsQueue(w', d);
      hide Replayed;
    }
  }

  function HandledAll(w: World, d: DeliveryId, n: nat): World
    requires d in w.deliveries && w.deliveries[d].next == 0 && w.deliveries[d].phase.Waiting? && n <= |w.deliveries[d].batch|
    ensures var w', dl := HandledAll(w, d, n), w.deliveries[d];
      && d in w'.deliveries && w'.deliveries[d] == Delivery(dl.estate, dl.batch, n, Waiting, w'.deliveries[d].results)
      && SameQueue(w, w')
  {
    if n == 0 then w
    else
      HandledIsSyncOne(HandledAll(w, d, n - 1), d);
      HandlingKeepsQueue(HandledAll(w, d, n - 1), d);
      Handled(HandledAll(w, d, n - 1), d)
  }

  lemma SyncBatchGrows(s: Server, estate: EstateId, events: seq<Event>, n: nat)
    requires 0 < n <= |events|
    ensures var (before, results) := SyncBatch(s, estate, events[..n - 1]);
      var (after, r) := SyncOne(before, estate, events[n - 1]);
      SyncBatch(s, estate, events[..n]) == (after, results + [r])
  {
    hide SyncOne;
    assert events[..n][..n - 1] == events[..n - 1];
  }

  lemma {:induction false} UninterruptedIsSyncBatch(w: World, d: DeliveryId, n: nat)
    requires d in w.deliveries && w.deliveries[d].next == 0 && w.deliveries[d].phase.Waiting? && w.deliveries[d].results == []
    requires n <= |w.deliveries[d].batch|
    ensures var dl := w.deliveries[d];
      (HandledAll(w, d, n).server, HandledAll(w, d, n).deliveries[d].results) == SyncBatch(w.server, dl.estate, dl.batch[..n])
  {
    if n == 0 {
      assert w.deliveries[d].batch[..0] == [];
    } else {
      OneMoreHandled(w, d, n);
      hide SyncOne, SyncBatch, Handled, HandledAll;
      UninterruptedIsSyncBatch(w, d, n - 1);
    }
  }

  lemma OneMoreHandled(w: World, d: DeliveryId, n: nat)
    requires d in w.deliveries && w.deliveries[d].next == 0 && w.deliveries[d].phase.Waiting? && 0 < n <= |w.deliveries[d].batch|
    ensures var dl, before, after := w.deliveries[d], HandledAll(w, d, n - 1), HandledAll(w, d, n);
      (before.server, before.deliveries[d].results) == SyncBatch(w.server, dl.estate, dl.batch[..n - 1]) ==>
        (after.server, after.deliveries[d].results) == SyncBatch(w.server, dl.estate, dl.batch[..n])
  {
    hide SyncOne, SyncBatch, Handled;
    var dl, before := w.deliveries[d], HandledAll(w, d, n - 1);
    assert HandledAll(w, d, n) == Handled(before, d);
    assert AtEvent(before, d) && Current(before, d) == dl.batch[n - 1];
    hide HandledAll, AtEvent, Current;
    HandledIsSyncOne(before, d);
    SyncBatchGrows(w.server, dl.estate, dl.batch, n);
  }

  /** A whole round: the queue is sent, delivered, handled, answered, and the answer received. */
  ghost function Round(w: World, order: seq<EventId>, d: DeliveryId, estate: EstateId, zone: Time -> int): World
    requires RoundIsPossible(w, order, d)
  {
    RoundStarts(w, order, d, estate, zone);
    var batch := Events(order, w.queue);
    var w' := HandledAll(Step(Step(w, Send(order), zone), Deliver(d, estate, batch), zone), d, |batch|);
    Step(Step(w', Answer(d), zone), Receive(w'.deliveries[d].results), zone)
  }

  ghost predicate RoundIsPossible(w: World, order: seq<EventId>, d: DeliveryId) {
    && Delivered(w) && ListsQueue(order, w.queue) && order != [] && |order| <= BATCH_CAP && d !in w.deliveries
    && forall i :: 0 <= i < |order| ==> order[i] in w.queue
  }

  lemma RoundStarts(w: World, order: seq<EventId>, d: DeliveryId, estate: EstateId, zone: Time -> int)
    requires RoundIsPossible(w, order, d)
    ensures var batch := Events(order, w.queue);
      var w' := Step(Step(w, Send(order), zone), Deliver(d, estate, batch), zone);
      && d in w'.deliveries && w'.deliveries[d] == Delivery(estate, batch, 0, Waiting, [])
      && (w'.queue, w'.server) == (w.queue, w.server)
  {
    hide Delivered, ListsQueue;
  }

  /** From any state, a whole round leaves the device's queue empty and every event of it in the server's log. */
  lemma RoundEmptiesQueue(w: World, order: seq<EventId>, d: DeliveryId, estate: EstateId, zone: Time -> int)
    requires RoundIsPossible(w, order, d)
    ensures Round(w, order, d, estate, zone).queue == map[]
    ensures forall id :: id in w.queue ==> id in Round(w, order, d, estate, zone).server.log
  {
    RoundStarts(w, order, d, estate, zone);
    var batch := Events(order, w.queue);
    var w2 := Step(Step(w, Send(order), zone), Deliver(d, estate, batch), zone);
    hide Step, Delivered;
    UninterruptedIsSyncBatch(w2, d, |batch|);
    assert batch[..|batch|] == batch;
    BatchIsLogged(w2.server, estate, batch);
    var w3 := HandledAll(w2, d, |batch|);
    hide SyncBatch, HandledAll;
    var results := w3.deliveries[d].results;
    assert forall id :: id in w.queue ==> w.queue[id].id == id by { QueueIds(w); }
    forall id | id in w.queue
      ensures id in ResultIds(results) && id in w3.server.log
    {
      assert id in Elements(order);
      var i :| 0 <= i < |order| && order[i] == id;
      assert batch[i] == w.queue[id] && results[i].id == batch[i].id;
    }
    RoundEnds(w3, d, zone);
  }

  lemma QueueIds(w: World)
    requires Delivered(w)
    ensures forall id :: id in w.queue ==> w.queue[id].id == id
  {
  }

  lemma RoundEnds(w: World, d: DeliveryId, zone: Time -> int)
    requires d in w.deliveries && w.deliveries[d].next == |w.deliveries[d].batch|
    ensures var results := w.deliveries[d].results;
      var w' := Step(Step(w, Answer(d), zone), Receive(results), zone);
      w'.queue == w.queue - ResultIds(results) && w'.server == w.server
  {
    hide ResultIds;
  }

  /** With more than 200 events queued, a whole round is refused, and nothing changes on the server or on the device. */
  lemma OversizedRoundIsRefused(w: World, order: seq<EventId>, d: DeliveryId, estate: EstateId, zone: Time -> int)
    requires ListsQueue(order, w.queue) && |w.queue| > 200 && forall i :: 0 <= i < |order| ==> order[i] in w.queue
    ensures var w' := Step(Step(w, Send(order), zone), Deliver(d, estate, Events(order, w.queue)), zone);
      (w'.server, w'.queue, w'.deliveries, w'.replies) == (w.server, w.queue, w.deliveries, w.replies)
  {
    DistinctCount(order);
    assert |order| == |w.queue.Keys| == |w.queue|;
    hide ListsQueue;
  }
}
