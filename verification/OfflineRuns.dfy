/**
 * One device, one server, the network, and the rest of the estate, in every interleaving. A delivered batch is handled
 * event by event: looked up in the log, begun, entered, and logged, with anything else in between; a handling may stop at
 * any point, and batches and answers may be lost, late or repeated.
 */
module OfflineRuns {
  import opened Domain
  import opened Lists
  import opened GateLedger
  import opened GateOneTime
  import opened OfflineSync
  import M = GateMachine

  type DeliveryId = nat

  /** How far the handling of a delivery's next event has come. */
  datatype Phase =
    | Waiting
    | Unseen
    | Entering(policy: EntryPolicy)
    | Acted(error: Option<Error>, made: Option<VisitId>)

  datatype Delivery = Delivery(estate: EstateId, batch: seq<Event>, next: nat, phase: Phase, results: seq<EventResult>)

  datatype World = World(
    server: Server,
    requests: map<M.RequestId, M.Request>,
    queue: map<EventId, Event>,
    /** Batches on the wire; any of them may arrive again at any time. */
    sent: set<seq<Event>>,
    deliveries: map<DeliveryId, Delivery>,
    /** Answers on the wire; any of them may be lost, late or repeated. */
    replies: set<seq<EventResult>>,
    /** What has happened so far: events queued, events acted on, and visits made doing so. */
    enqueued: map<EventId, Event>,
    applied: seq<EventId>,
    replayed: set<VisitId>)

  const EMPTY_WORLD := World(Server(EMPTY_LEDGER, map[]), map[], map[], {}, map[], {}, map[], [], {})

  datatype Action =
    | Enqueue(event: Event)
    | Send(order: seq<EventId>)
    | Deliver(delivery: DeliveryId, estate: EstateId, batch: seq<Event>)
    | LookUp(delivery: DeliveryId)
    | Begin(delivery: DeliveryId)
    | Enter(delivery: DeliveryId)
    | WriteLog(delivery: DeliveryId, refused: bool)
    | Answer(delivery: DeliveryId)
    | Stop(delivery: DeliveryId)
    | Receive(reply: seq<EventResult>)
    | Online(action: M.Action)

  // ---- Handling one event ----

  predicate AtEvent(w: World, d: DeliveryId) {
    d in w.deliveries && w.deliveries[d].next < |w.deliveries[d].batch|
  }

  function Current(w: World, d: DeliveryId): Event
    requires AtEvent(w, d)
  {
    w.deliveries[d].batch[w.deliveries[d].next]
  }

  function SetPhase(w: World, d: DeliveryId, phase: Phase): World
    requires d in w.deliveries
  {
    w.(deliveries := w.deliveries[d := w.deliveries[d].(phase := phase)])
  }

  /** The event is answered and the next one is up. */
  function Answered(w: World, d: DeliveryId, r: EventResult): World
    requires d in w.deliveries
  {
    var dl := w.deliveries[d];
    w.(deliveries := w.deliveries[d := dl.(next := dl.next + 1, phase := Waiting, results := dl.results + [r])])
  }

  function LookedUp(w: World, d: DeliveryId): World
    requires AtEvent(w, d) && w.deliveries[d].phase.Waiting?
  {
    var ev := Current(w, d);
    if ev.id in w.server.log then Answered(w, d, AlreadySynced(ev.id, w.server.log[ev.id].status)) else SetPhase(w, d, Unseen)
  }

  /** Acting on the event has had its effect, if any. */
  function ActedOn(w: World, d: DeliveryId, error: Option<Error>, made: Option<VisitId>): World
    requires AtEvent(w, d)
  {
    SetPhase(w, d, Acted(error, made)).(applied := w.applied + [Current(w, d).id],
                                        replayed := w.replayed + if made.Some? then {made.value} else {})
  }

  function Begun(w: World, d: DeliveryId): World
    requires AtEvent(w, d) && w.deliveries[d].phase.Unseen?
  {
    var ev, estate := Current(w, d), w.deliveries[d].estate;
    match ev.decision
    case DENIED =>
      var r := DenyEntry(w.server.db, estate, ev.invitation);
      ActedOn(w, d, if r.Ok? then None else Some(r.error), None)
    case ALLOWED =>
      match CheckEntry(w.server.db, estate, ev.invitation)
      case Err(e) => ActedOn(w, d, Some(e), None)
      case Ok(policy) => SetPhase(w, d, Entering(policy))
  }

  predicate MayEnter(w: World, d: DeliveryId) {
    AtEvent(w, d) && w.deliveries[d].phase.Entering? && Current(w, d).invitation in w.server.db.invitations
  }

  function Entered(w: World, d: DeliveryId): World
    requires MayEnter(w, d)
  {
    var (db, r) := CommitEntry(w.server.db, Current(w, d).invitation, w.deliveries[d].phase.policy);
    ActedOn(w.(server := w.server.(db := db)), d, if r.Ok? then None else Some(r.error), if r.Ok? then Some(r.value) else None)
  }

  /** What goes wrong, if anything, by the time the row is written; refused is when the database refuses a row for its own reasons. */
  function LogError(phase: Phase, refused: bool): Option<Error>
    requires phase.Acted?
  {
    if phase.error.None? && refused then Some(Internal) else phase.error
  }

  /** No row can be written: there is one for the id, or the database refuses the one that says FAILED. */
  predicate CannotLog(w: World, d: DeliveryId, refused: bool)
    requires AtEvent(w, d) && w.deliveries[d].phase.Acted?
  {
    Current(w, d).id in w.server.log || (refused && w.deliveries[d].phase.error.Some?)
  }

  /** A SYNCED row that is refused is written as FAILED instead; when that is refused as well, the whole request fails. */
  function Logged(w: World, d: DeliveryId, refused: bool): World
    requires AtEvent(w, d) && w.deliveries[d].phase.Acted?
  {
    var ev, error := Current(w, d), LogError(w.deliveries[d].phase, refused);
    if CannotLog(w, d, refused) then w.(deliveries := w.deliveries - {d})
    else
      var status := if error.None? then SYNCED else FAILED;
      var r := if error.None? then Synced(ev.id) else Failed(ev.id, error.value);
      Answered(w, d, r).(server := w.server.(log := w.server.log[ev.id := LogRow(ev, status)]))
  }

  // ---- All steps ----

  /** Event ids are random and never repeat. */
  function Enqueued(w: World, ev: Event): World {
    if ev.id in w.enqueued then w
    else w.(queue := w.queue[ev.id := ev], enqueued := w.enqueued[ev.id := ev])
  }

  function Started(w: World, d: DeliveryId, estate: EstateId, batch: seq<Event>): World {
    if batch in w.sent && |batch| <= BATCH_CAP && d !in w.deliveries
    then w.(deliveries := w.deliveries[d := Delivery(estate, batch, 0, Waiting, [])])
    else w
  }

  /** A batch is answered only once all of it is handled. */
  function Replied(w: World, d: DeliveryId): World {
    if d in w.deliveries && w.deliveries[d].next == |w.deliveries[d].batch|
    then w.(replies := w.replies + {w.deliveries[d].results}, deliveries := w.deliveries - {d})
    else w
  }

  ghost function Step(w: World, a: Action, zone: Time -> int): World {
    match a
    case Enqueue(ev) => Enqueued(w, ev)
    case Send(order) =>
      if ListsQueue(order, w.queue) && order != []
      then
        assert forall i :: 0 <= i < |order| ==> order[i] in Elements(order);
        w.(sent := w.sent + {Events(order, w.queue)})
      else w
    case Deliver(d, estate, batch) => Started(w, d, estate, batch)
    case LookUp(d) => if AtEvent(w, d) && w.deliveries[d].phase.Waiting? then LookedUp(w, d) else w
    case Begin(d) => if AtEvent(w, d) && w.deliveries[d].phase.Unseen? then Begun(w, d) else w
    case Enter(d) => if MayEnter(w, d) then Entered(w, d) else w
    case WriteLog(d, refused) => if AtEvent(w, d) && w.deliveries[d].phase.Acted? then Logged(w, d, refused) else w
    case Answer(d) => Replied(w, d)
    case Stop(d) => w.(deliveries := w.deliveries - {d})
    case Receive(reply) => if reply in w.replies then w.(queue := w.queue - ResultIds(reply)) else w
    case Online(action) =>
      var g := M.Step(M.Gate(w.server.db, w.requests), action, zone);
      w.(server := w.server.(db := g.db), requests := g.requests)
  }

  ghost function Run(actions: seq<Action>, zone: Time -> int): World {
    if actions == [] then EMPTY_WORLD
    else Step(Run(actions[..|actions| - 1], zone), actions[|actions| - 1], zone)
  }

  // ---- Nothing is lost ----

  ghost predicate BatchKnown(b: seq<Event>, enqueued: map<EventId, Event>) {
    forall i :: 0 <= i < |b| ==> b[i].id in enqueued && enqueued[b[i].id] == b[i]
  }

  ghost predicate AllLogged(r: seq<EventResult>, log: map<EventId, LogRow>) {
    forall i :: 0 <= i < |r| ==> r[i].id in log
  }

  ghost predicate DeliveryKnown(dl: Delivery, w: World) {
    && BatchKnown(dl.batch, w.enqueued) && AllLogged(dl.results, w.server.log)
    && dl.next <= |dl.batch| && (!dl.phase.Waiting? ==> dl.next < |dl.batch|)
  }

  ghost predicate Delivered(w: World) {
    && (forall id :: id in w.queue ==> id in w.enqueued && w.queue[id] == w.enqueued[id])
    && (forall id :: id in w.enqueued ==> w.enqueued[id].id == id && (id in w.queue || id in w.server.log))
    && (forall id :: id in w.server.log ==> id in w.enqueued && w.server.log[id].event == w.enqueued[id])
    && (forall b: seq<Event> :: b in w.sent ==> BatchKnown(b, w.enqueued))
    && (forall r: seq<EventResult> :: r in w.replies ==> AllLogged(r, w.server.log))
    && (forall d :: d in w.deliveries ==> DeliveryKnown(w.deliveries[d], w))
  }

  /** Changes that keep what is known: rows of the log and events queued only accumulate. */
  ghost predicate Accumulates(w: World, w': World) {
    && w'.sent == w.sent && w'.replies == w.replies && w'.enqueued == w.enqueued && w'.queue == w.queue
    && (forall id :: id in w.server.log ==> id in w'.server.log && w'.server.log[id] == w.server.log[id])
    && (forall id :: id in w'.server.log ==> id in w.server.log || (id in w.enqueued && w'.server.log[id].event == w.enqueued[id]))
    && (forall d :: d in w'.deliveries ==> DeliveryKnown(w'.deliveries[d], w'))
  }

  lemma AccumulatingKeepsDelivered(w: World, w': World)
    requires Delivered(w) && Accumulates(w, w')
    ensures Delivered(w')
  {
  }

  lemma LookUpAccumulates(w: World, d: DeliveryId)
    requires Delivered(w) && AtEvent(w, d) && w.deliveries[d].phase.Waiting?
    ensures Accumulates(w, LookedUp(w, d))
  {
  }

  /** Nothing the device or the log can see changes, only the phase of one delivery. */
  lemma PhaseAccumulates(w: World, w': World, d: DeliveryId)
    requires Delivered(w) && AtEvent(w, d)
    requires w'.server.log == w.server.log && d in w'.deliveries
    requires w'.deliveries == w.deliveries[d := w.deliveries[d].(phase := w'.deliveries[d].phase)]
    requires (w'.sent, w'.replies, w'.enqueued, w'.queue) == (w.sent, w.replies, w.enqueued, w.queue)
    ensures Accumulates(w, w')
  {
    hide BatchKnown, AllLogged;
  }

  lemma BegunIsPhase(w: World, d: DeliveryId)
    requires AtEvent(w, d) && w.deliveries[d].phase.Unseen?
    ensures var w' := Begun(w, d);
      && d in w'.deliveries && w'.deliveries == w.deliveries[d := w.deliveries[d].(phase := w'.deliveries[d].phase)]
      && (w'.sent, w'.replies, w'.enqueued, w'.queue, w'.server, w'.requests)
         == (w.sent, w.replies, w.enqueued, w.queue, w.server, w.requests)
  {
    hide CheckEntry, DenyEntry;
  }

  lemma EnteredIsPhase(w: World, d: DeliveryId)
    requires MayEnter(w, d)
    ensures var w' := Entered(w, d);
      && d in w'.deliveries && w'.deliveries == w.deliveries[d := w.deliveries[d].(phase := w'.deliveries[d].phase)]
      && (w'.sent, w'.replies, w'.enqueued, w'.queue, w'.server.log, w'.requests)
         == (w.sent, w.replies, w.enqueued, w.queue, w.server.log, w.requests)
  {
    hide CommitEntry;
  }

  lemma LoggingAccumulates(w: World, d: DeliveryId, refused: bool)
    requires Delivered(w) && AtEvent(w, d) && w.deliveries[d].phase.Acted?
    ensures Accumulates(w, Logged(w, d, refused))
  {
  }

  lemma SendKeepsDelivered(w: World, order: seq<EventId>, zone: Time -> int)
    requires Delivered(w)
    ensures Delivered(Step(w, Send(order), zone))
  {
    if ListsQueue(order, w.queue) && order != [] {
      assert forall i :: 0 <= i < |order| ==> order[i] in Elements(order);
      assert BatchKnown(Events(order, w.queue), w.enqueued);
      hide Events, ListsQueue, Elements;
    }
  }

  lemma ReceiveKeepsDelivered(w: World, reply: seq<EventResult>, zone: Time -> int)
    requires Delivered(w)
    ensures Delivered(Step(w, Receive(reply), zone))
  {
    if reply in w.replies {
      assert forall id :: id in ResultIds(reply) ==> id in w.server.log;
    }
    hide ResultIds;
  }

  lemma StepKeepsDelivered(w: World, a: Action, zone: Time -> int)
    requires Delivered(w)
    ensures Delivered(Step(w, a, zone))
  {
    hide LookedUp, Begun, Entered, Logged, Events, ResultIds, ListsQueue, M.Step, Enqueued, Replied, Started, Delivered, Accumulates;
    match a
    case LookUp(d) =>
      if AtEvent(w, d) && w.deliveries[d].phase.Waiting? {
        LookUpAccumulates(w, d);
        AccumulatingKeepsDelivered(w, LookedUp(w, d));
      }
    case Begin(d) =>
      if AtEvent(w, d) && w.deliveries[d].phase.Unseen? {
        BegunIsPhase(w, d);
        PhaseAccumulates(w, Begun(w, d), d);
        AccumulatingKeepsDelivered(w, Begun(w, d));
      }
    case Enter(d) =>
      if MayEnter(w, d) {
        EnteredIsPhase(w, d);
        PhaseAccumulates(w, Entered(w, d), d);
        AccumulatingKeepsDelivered(w, Entered(w, d));
      }
    case WriteLog(d, refused) =>
      if AtEvent(w, d) && w.deliveries[d].phase.Acted? {
        LoggingAccumulates(w, d, refused);
        AccumulatingKeepsDelivered(w, Logged(w, d, refused));
      }
    case Send(order) => SendKeepsDelivered(w, order, zone);
    case Receive(reply) => ReceiveKeepsDelivered(w, reply, zone);
    case Enqueue(ev) => EnqueueKeepsDelivered(w, ev);
    case Answer(d) => AnswerKeepsDelivered(w, d);
    case Deliver(d, estate, batch) => StartKeepsDelivered(w, d, estate, batch);
    case Stop(_) => NoMoreDeliveries(w, Step(w, a, zone));
    case Online(_) => NoMoreDeliveries(w, Step(w, a, zone));
  }

  lemma StartKeepsDelivered(w: World, d: DeliveryId, estate: EstateId, batch: seq<Event>)
    requires Delivered(w)
    ensures Delivered(Started(w, d, estate, batch))
  {
    assert AllLogged([], w.server.log);
    hide BatchKnown, AllLogged;
  }

  lemma NoMoreDeliveries(w: World, w': World)
    requires Delivered(w) && w'.server.log == w.server.log
    requires forall d :: d in w'.deliveries ==> d in w.deliveries && w'.deliveries[d] == w.deliveries[d]
    requires (w'.sent, w'.replies, w'.enqueued, w'.queue) == (w.sent, w.replies, w.enqueued, w.queue)
    ensures Delivered(w')
  {
    hide BatchKnown, AllLogged;
  }

  lemma EnqueueKeepsDelivered(w: World, ev: Event)
    requires Delivered(w)
    ensures Delivered(Enqueued(w, ev))
  {
    forall d | d in w.deliveries && ev.id !in w.enqueued
      ensures DeliveryKnown(w.deliveries[d], Enqueued(w, ev))
    {
    }
    hide DeliveryKnown, AllLogged;
  }

  lemma AnswerKeepsDelivered(w: World, d: DeliveryId)
    requires Delivered(w)
    ensures Delivered(Replied(w, d))
  {
    hide AllLogged, BatchKnown;
  }

  lemma {:induction false} RunKeepsDelivered(actions: seq<Action>, zone: Time -> int)
    ensures Delivered(Run(actions, zone))
  {
    if actions != [] {
      RunKeepsDelivered(actions[..|actions| - 1], zone);
      StepKeepsDelivered(Run(actions[..|actions| - 1], zone), actions[|actions| - 1], zone);
      hide Step, Delivered;
    }
  }

  /** In every run, every event ever queued is still queued or is in the server's log as it was queued. */
  lemma NothingLost(actions: seq<Action>, zone: Time -> int, id: EventId)
    requires id in Run(actions, zone).enqueued
    ensures var w := Run(actions, zone);
      id in w.queue || (id in w.server.log && w.server.log[id].event == w.enqueued[id])
  {
    RunKeepsDelivered(actions, zone);
  }

  /** An event leaves the device only when the server already has it. */
  lemma LeavesQueueOnlyWhenLogged(actions: seq<Action>, a: Action, zone: Time -> int, id: EventId)
    requires id in Run(actions, zone).queue && id !in Step(Run(actions, zone), a, zone).queue
    ensures id in Run(actions, zone).server.log
  {
    RunKeepsDelivered(actions, zone);
    hide M.Step, CommitEntry, CheckEntry, DenyEntry;
  }
}
