/** The server's sync endpoint and the device's stores, changed in place. */
module OfflineService {
  import opened Domain
  import opened Lists
  import opened GateService
  import opened OfflineSync
  import L = GateLedger
  import V = OfflineVerification

  class OfflineSyncService {
    const gate: GateDatabase
    var log: map<EventId, LogRow>

    function State(): Server
      reads this, gate
    {
      Server(gate.Rows(), log)
    }

    constructor (gate: GateDatabase)
      ensures this.gate == gate && log == map[]
    {
      this.gate := gate;
      log := map[];
    }

    method SyncOne(estate: EstateId, ev: Event) returns (result: EventResult)
      requires gate.Valid()
      modifies this, gate
      ensures gate.Valid()
      ensures (State(), result) == OfflineSync.SyncOne(old(State()), estate, ev)
    {
      if ev.id in log {
        return AlreadySynced(ev.id, log[ev.id].status);
      }
      var error: Option<Error> := None;
      if ev.decision == ALLOWED {
        var r := gate.RecordEntry(estate, ev.invitation);
        if r.Err? { error := Some(r.error); }
      } else if ev.invitation !in gate.invitations || gate.invitations[ev.invitation].estate != estate {
        error := Some(NotFound);
      }
      if error.Some? {
        // A rejected event still uses up its id, so the device stops retrying it.
        log := log[ev.id := LogRow(ev, FAILED)];
        return Failed(ev.id, error.value);
      }
      log := log[ev.id := LogRow(ev, SYNCED)];
      return Synced(ev.id);
    }

    method SyncBatch(estate: EstateId, events: seq<Event>) returns (results: seq<EventResult>)
      requires gate.Valid()
      modifies this, gate
      ensures gate.Valid()
      ensures (State(), results) == OfflineSync.SyncBatch(old(State()), estate, events)
    {
      results := [];
      for i := 0 to |events|
        invariant gate.Valid()
        invariant (State(), results) == OfflineSync.SyncBatch(old(State()), estate, events[..i])
      {
        assert events[..i + 1][..i] == events[..i];
        var result := SyncOne(estate, events[i]);
        results := results + [result];
      }
      assert events[..|events|] == events;
    }
  }

  function Failures(results: seq<EventResult>): seq<EventResult> {
    if results == [] then []
    else Failures(results[..|results| - 1]) + if results[|results| - 1].Failed? then [results[|results| - 1]] else []
  }

  /** Exactly the failures are handed back, in order. */
  lemma {:induction false} FailuresAreComplete(a: seq<EventResult>, r: EventResult, b: seq<EventResult>)
    ensures Failures(a + [r] + b) == Failures(a) + (if r.Failed? then [r] else []) + Failures(b)
  {
    var whole := a + [r] + b;
    if b == [] {
      assert whole[..|whole| - 1] == a;
    } else {
      var front := b[..|b| - 1];
      assert whole[..|whole| - 1] == a + [r] + front;
      FailuresAreComplete(a, r, front);
    }
  }

  function Stored(entries: seq<V.Entry>): map<InvitationId, V.Entry> {
    if entries == [] then map[] else Stored(entries[..|entries| - 1])[entries[|entries| - 1].id := entries[|entries| - 1]]
  }

  /** The store holds exactly the entries it was given, when no two have the same id. */
  lemma {:induction false} StoredHoldsAll(entries: seq<V.Entry>)
    requires forall i, j :: 0 <= i < j < |entries| ==> entries[i].id != entries[j].id
    ensures forall id :: id in Stored(entries) ==> Stored(entries)[id].id == id && Stored(entries)[id] in entries
    ensures forall e :: e in entries ==> e.id in Stored(entries) && Stored(entries)[e.id] == e
  {
    if entries != [] {
      var front, last := entries[..|entries| - 1], entries[|entries| - 1];
      StoredHoldsAll(front);
      assert entries == front + [last];
      assert forall e :: e in front ==> e.id != last.id;
    }
  }

  class GateDevice {
    var queue: map<EventId, Event>
    var manifest: map<InvitationId, V.Entry>
    var hasKey: bool

    constructor ()
      ensures queue == map[] && manifest == map[] && !hasKey
    {
      queue, manifest, hasKey := map[], map[], false;
    }

    method ReplaceManifest(entries: seq<V.Entry>)
      modifies this`manifest, this`hasKey
      ensures manifest == Stored(entries) && hasKey
    {
      manifest := map[];
      for i := 0 to |entries|
        invariant manifest == Stored(entries[..i])
      {
        assert entries[..i + 1][..i] == entries[..i];
        manifest := manifest[entries[i].id := entries[i]];
      }
      assert entries[..|entries|] == entries;
      hasKey := true;
    }

    /** listed and order are what reading the two stores gives. */
    method VerifyOffline(listed: seq<V.Entry>, order: seq<EventId>, how: V.Method, credential: string, now: Time, genuine: V.Entry -> bool)
      returns (outcome: L.Outcome)
      requires ListsQueue(order, queue) && forall e :: e in listed <==> e in manifest.Values
      ensures outcome == if hasKey then V.VerifyOffline(listed, queue, how, credential, now, genuine) else L.UNKNOWN
    {
      if !hasKey { return L.UNKNOWN; }
      var matching := V.FindMatch(listed, how, credential);
      if matching.None? { return L.UNKNOWN; }
      if !genuine(matching.value) { return L.UNKNOWN; }
      var row := matching.value.row;
      var queued := HasQueuedAllow(order, matching.value.id);
      var alreadyUsedLocally := row.policy == ONE_TIME && (row.status == USED || queued);
      if row.status == REVOKED || row.status == CANCELLED {
        outcome := L.WITHDRAWN_PASS;
      } else if alreadyUsedLocally {
        outcome := L.ALREADY_USED;
      } else if row.validUntil < now {
        outcome := L.PAST;
      } else if row.validFrom > now {
        outcome := L.NOT_YET_VALID;
      } else {
        outcome := L.VALID;
      }
    }

    method EnqueueEvent(ev: Event)
      modifies this`queue
      ensures queue == old(queue)[ev.id := ev]
    {
      queue := queue[ev.id := ev];
    }

    method RemoveQueuedEvent(id: EventId)
      modifies this`queue
      ensures queue == old(queue) - {id}
    {
      queue := queue - {id};
    }

    method HasQueuedAllow(order: seq<EventId>, invitation: InvitationId) returns (found: bool)
      requires ListsQueue(order, queue)
      ensures found == V.HasQueuedAllow(queue, invitation)
    {
      assert forall i :: 0 <= i < |order| ==> order[i] in Elements(order);
      for i := 0 to |order|
        invariant forall k :: 0 <= k < i ==> !V.AllowFor(queue[order[k]], invitation)
      {
        if queue[order[i]].invitation == invitation && queue[order[i]].decision == ALLOWED {
          assert queue[order[i]] in queue.Values;
          return true;
        }
      }
      assert forall id :: id in queue ==> id in Elements(order);
      return false;
    }

    /** The loop over the server's answers: every answered event goes, the failures are handed back. */
    method TakeResults(results: seq<EventResult>) returns (synced: nat, failed: seq<EventResult>)
      modifies this`queue
      ensures queue == old(queue) - ResultIds(results)
      ensures failed == Failures(results) && synced + |failed| == |results|
    {
      synced, failed := 0, [];
      for i := 0 to |results|
        invariant queue == old(queue) - ResultIds(results[..i])
        invariant failed == Failures(results[..i]) && synced + |failed| == i
      {
        assert results[..i + 1][..i] == results[..i];
        assert ResultIds(results[..i + 1]) == ResultIds(results[..i]) + {results[i].id};
        RemoveQueuedEvent(results[i].id);
        if results[i].Failed? {
          failed := failed + [results[i]];
        } else {
          synced := synced + 1;
        }
      }
      assert results[..|results|] == results;
    }

    /** arrives says whether the server's answer gets back; without it the call throws and the queue stays. */
    method FlushOfflineQueue(server: OfflineSyncService, estate: EstateId, order: seq<EventId>, arrives: bool)
      returns (synced: nat, failed: seq<EventResult>)
      requires server.gate.Valid() && ListsQueue(order, queue)
      requires forall i :: 0 <= i < |order| ==> order[i] in queue && queue[order[i]].id == order[i]
      modifies this`queue, server, server.gate
      ensures server.gate.Valid()
      ensures var (state, results) := Exchange(old(server.State()), estate, Events(order, old(queue)));
        && server.State() == state
        && (arrives ==> queue == old(queue) - ResultIds(results) && failed == Failures(results) && synced + |failed| == |results|)
        && (!arrives ==> queue == old(queue) && failed == [] && synced == 0)
    {
      synced, failed := 0, [];
      if order == [] { return; }
      var events := Events(order, queue);
      // A batch over the cap is refused before anything is done, and that answer throws too.
      if |events| > BATCH_CAP { return; }
      var results := server.SyncBatch(estate, events);
      if arrives {
        synced, failed := TakeResults(results);
      }
    }
  }

  function Exchange(s: Server, estate: EstateId, events: seq<Event>): (Server, seq<EventResult>) {
    if |events| > BATCH_CAP then (s, []) else OfflineSync.SyncBatch(s, estate, events)
  }

  /** A flush that gets its answer empties the queue, and the server then has every event. */
  lemma FlushEmptiesQueue(s: Server, estate: EstateId, order: seq<EventId>, queue: map<EventId, Event>)
    requires ListsQueue(order, queue) && |order| <= BATCH_CAP
    requires forall i :: 0 <= i < |order| ==> order[i] in queue && queue[order[i]].id == order[i]
    ensures var (state, results) := Exchange(s, estate, Events(order, queue));
      queue - ResultIds(results) == map[] && queue.Keys <= state.log.Keys
  {
    var events := Events(order, queue);
    var (state, results) := Exchange(s, estate, events);
    BatchIsLogged(s, estate, events);
    forall id | id in queue
      ensures id in ResultIds(results) && id in state.log
    {
      assert id in Elements(order);
      var i :| 0 <= i < |order| && order[i] == id;
      assert results[i].id == events[i].id;
    }
  }
}
