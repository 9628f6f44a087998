/** Offline decisions: queued on a gate device and replayed on the server, each event id once. */
module OfflineSync {
  import opened Domain
  import opened Lists
  import opened GateLedger

  type EventId = nat

  datatype Decision = ALLOWED | DENIED
  datatype Event = Event(id: EventId, invitation: InvitationId, decision: Decision, occurredAt: Time)

  datatype SyncStatus = SYNCED | FAILED
  datatype LogRow = LogRow(event: Event, status: SyncStatus)
  datatype EventResult =
    | Synced(id: EventId)
    | AlreadySynced(id: EventId, prior: SyncStatus)
    | Failed(id: EventId, error: Error)

  datatype Server = Server(db: Ledger, log: map<EventId, LogRow>)

  const BATCH_CAP := 200

  // ---- The server's replay ----

  function Replay(db: Ledger, estate: EstateId, ev: Event): (Ledger, Option<Error>) {
    match ev.decision
    case ALLOWED =>
      var (db', r) := RecordEntry(db, estate, ev.invitation);
      (db', if r.Ok? then None else Some(r.error))
    case DENIED =>
      var r := DenyEntry(db, estate, ev.invitation);
      (db, if r.Ok? then None else Some(r.error))
  }

  function SyncOne(s: Server, estate: EstateId, ev: Event): (Server, EventResult) {
    if ev.id in s.log then (s, AlreadySynced(ev.id, s.log[ev.id].status))
    else
      match Replay(s.db, estate, ev)
      case (db, None) => (Server(db, s.log[ev.id := LogRow(ev, SYNCED)]), Synced(ev.id))
      case (db, Some(error)) => (Server(db, s.log[ev.id := LogRow(ev, FAILED)]), Failed(ev.id, error))
  }

  function SyncBatch(s: Server, estate: EstateId, events: seq<Event>): (Server, seq<EventResult>) {
    if events == [] then (s, [])
    else
      var (s1, results) := SyncBatch(s, estate, events[..|events| - 1]);
      var (s2, r) := SyncOne(s1, estate, events[|events| - 1]);
      (s2, results + [r])
  }

  /** A second delivery of a batch changes nothing and answers ALREADY_SYNCED throughout. */
  lemma {:induction false} RedeliveryIsANoOp(s: Server, estate: EstateId, events: seq<Event>)
    requires forall i :: 0 <= i < |events| ==> events[i].id in s.log
    ensures SyncBatch(s, estate, events).0 == s
    ensures forall i :: 0 <= i < |events| ==>
      i < |SyncBatch(s, estate, events).1| && SyncBatch(s, estate, events).1[i] == AlreadySynced(events[i].id, s.log[events[i].id].status)
    ensures |SyncBatch(s, estate, events).1| == |events|
  {
    if events != [] {
      RedeliveryIsANoOp(s, estate, events[..|events| - 1]);
    }
  }

  lemma {:induction false} BatchIsLogged(s: Server, estate: EstateId, events: seq<Event>)
    ensures var (s', results) := SyncBatch(s, estate, events);
      && |results| == |events|
      && (forall i :: 0 <= i < |events| ==> results[i].id == events[i].id && events[i].id in s'.log)
      && (forall id :: id in s.log ==> id in s'.log && s'.log[id] == s.log[id])
  {
    if events != [] {
      BatchIsLogged(s, estate, events[..|events| - 1]);
    }
  }

  /** Whatever a batch holds, delivering it twice leaves the server as delivering it once. */
  lemma DeliveringTwiceIsOnce(s: Server, estate: EstateId, events: seq<Event>)
    ensures SyncBatch(SyncBatch(s, estate, events).0, estate, events).0 == SyncBatch(s, estate, events).0
  {
    BatchIsLogged(s, estate, events);
    RedeliveryIsANoOp(SyncBatch(s, estate, events).0, estate, events);
  }

  /**
   * A new event is logged as it was sent. A denied one is SYNCED if its pass is one of the estate's and changes nothing else;
   * an allowed one is SYNCED exactly when the gate would let it in now, and then is that entry.
   */
  lemma NewEventIsLogged(s: Server, estate: EstateId, ev: Event)
    requires ev.id !in s.log
    ensures var (after, r) := SyncOne(s, estate, ev);
      var entry := RecordEntry(s.db, estate, ev.invitation);
      var known := ev.invitation in s.db.invitations && s.db.invitations[ev.invitation].estate == estate;
      var accepted := if ev.decision == DENIED then known else entry.1.Ok?;
      && after.log == s.log[ev.id := LogRow(ev, if accepted then SYNCED else FAILED)]
      && after.db == (if ev.decision == ALLOWED then entry.0 else s.db)
      && (r == Synced(ev.id) <==> accepted)
      && (!accepted ==> r == Failed(ev.id, if ev.decision == DENIED then NotFound else entry.1.error))
  {
    hide RecordEntry;
  }

  // ---- What the device sends and gets back ----

  /** Reading every queued event, in whatever order the store keeps them. */
  ghost predicate ListsQueue(order: seq<EventId>, queue: map<EventId, Event>) {
    Distinct(order) && Elements(order) == queue.Keys
  }

  function Events(order: seq<EventId>, queue: map<EventId, Event>): seq<Event>
    requires forall i :: 0 <= i < |order| ==> order[i] in queue
  {
    seq(|order|, i requires 0 <= i < |order| => queue[order[i]])
  }

  function ResultIds(reply: seq<EventResult>): set<EventId> {
    set i | 0 <= i < |reply| :: reply[i].id
  }

  /** One queued allow, for runs that show what can go wrong. */
  const AN_ALLOW := Event(7, 0, ALLOWED, 0)
}
