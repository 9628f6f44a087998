/** A gate device without a network gives the answer the server would give once its queue is replayed. */
module OfflineVerification {
  import opened Domain
  import opened Lists
  import opened GateLedger
  import M = GateMachine
  import opened GateOneTime
  import opened GateExpiry
  import opened OfflineSync

  datatype Method = QR | MANUAL_CODE
  datatype Entry = Entry(id: InvitationId, row: Invitation)

  const MANIFEST_CAP := 2000

  // ---- The snapshot ----

  /** The estate's passes whose time has not run out, newest first. */
  ghost predicate ListsCurrent(recent: seq<InvitationId>, db: Ledger, estate: EstateId) {
    && Distinct(recent)
    && forall id :: id in recent <==> id in db.invitations && db.invitations[id].estate == estate && db.clock <= db.invitations[id].validUntil
  }

  function InManifest(recent: seq<InvitationId>): seq<InvitationId> {
    recent[..Min(|recent|, MANIFEST_CAP)]
  }

  function Manifest(db: Ledger, recent: seq<InvitationId>): seq<Entry>
    requires forall id :: id in recent ==> id in db.invitations
  {
    seq(|InManifest(recent)|, i requires 0 <= i < |InManifest(recent)| => Entry(recent[i], db.invitations[recent[i]]))
  }

  /** The device keeps the entries by id and reads them back in its own order. */
  ghost predicate Holds(stored: seq<Entry>, db: Ledger, recent: seq<InvitationId>)
    requires forall id :: id in recent ==> id in db.invitations
  {
    forall e :: e in stored <==> e in Manifest(db, recent)
  }

  // ---- The device ----

  /** A scan is matched by its credential: the SHA-256 of the token, or of the typed code trimmed and in upper case. */
  function HashOf(row: Invitation, how: Method): string {
    if how == MANUAL_CODE then row.codeHash else row.tokenHash
  }

  function FindMatch(entries: seq<Entry>, how: Method, credential: string): Option<Entry> {
    if entries == [] then None
    else if HashOf(entries[0].row, how) == credential then Some(entries[0])
    else FindMatch(entries[1..], how, credential)
  }

  predicate AllowFor(ev: Event, id: InvitationId) {
    ev.invitation == id && ev.decision == ALLOWED
  }

  predicate HasQueuedAllow(queue: map<EventId, Event>, id: InvitationId) {
    exists ev :: ev in queue.Values && AllowFor(ev, id)
  }

  function OfflineVerdict(row: Invitation, queuedAllow: bool, now: Time): Outcome {
    if Withdrawn(row.status) then WITHDRAWN_PASS
    else if row.policy == ONE_TIME && (row.status == USED || queuedAllow) then ALREADY_USED
    else if row.validUntil < now then PAST
    else if row.validFrom > now then NOT_YET_VALID
    else VALID
  }

  /** genuine says whether an entry's signature checks out. */
  function VerifyOffline(entries: seq<Entry>, queue: map<EventId, Event>, how: Method, credential: string,
                         now: Time, genuine: Entry -> bool): Outcome {
    match FindMatch(entries, how, credential)
    case None => UNKNOWN
    case Some(e) => if !genuine(e) then UNKNOWN else OfflineVerdict(e.row, HasQueuedAllow(queue, e.id), now)
  }

  // ---- The replay ----

  /** One queued event reaching the server some time after the one before it; the same event may arrive again. */
  datatype Arrival = Arrival(wait: nat, event: Event)

  function Later(db: Ledger, wait: nat): Ledger {
    db.(clock := db.clock + wait)
  }

  function SyncAll(s: Server, estate: EstateId, arrivals: seq<Arrival>): Server {
    if arrivals == [] then s
    else
      var before, last := SyncAll(s, estate, arrivals[..|arrivals| - 1]), arrivals[|arrivals| - 1];
      SyncOne(Server(Later(before.db, last.wait), before.log), estate, last.event).0
  }

  function ClockAfter(clock: Time, arrivals: seq<Arrival>): Time {
    if arrivals == [] then clock else ClockAfter(clock, arrivals[..|arrivals| - 1]) + arrivals[|arrivals| - 1].wait
  }

  /**
   * Some allowed event for the pass, not already known to the server, reached it while the pass's time was still
   * running.
   */
  predicate AllowedInTime(clock: Time, known: set<EventId>, arrivals: seq<Arrival>, id: InvitationId, validUntil: Time) {
    arrivals != [] &&
    var front, last := arrivals[..|arrivals| - 1], arrivals[|arrivals| - 1];
    AllowedInTime(clock, known, front, id, validUntil)
    || (AllowFor(last.event, id) && last.event.id !in known && ClockAfter(clock, arrivals) <= validUntil)
  }

  function EventsOf(arrivals: seq<Arrival>): set<Event> {
    set a | a in arrivals :: a.event
  }

  ghost predicate SomeNewAllow(events: set<Event>, known: set<EventId>, id: InvitationId) {
    exists ev :: ev in events && AllowFor(ev, id) && ev.id !in known
  }

  lemma {:induction false} InTimeMeansAllowed(clock: Time, known: set<EventId>, arrivals: seq<Arrival>, id: InvitationId, validUntil: Time)
    ensures AllowedInTime(clock, known, arrivals, id, validUntil) ==> SomeNewAllow(EventsOf(arrivals), known, id)
    ensures SomeNewAllow(EventsOf(arrivals), known, id) && ClockAfter(clock, arrivals) <= validUntil
            ==> AllowedInTime(clock, known, arrivals, id, validUntil)
  {
    if arrivals != [] {
      var front, last := arrivals[..|arrivals| - 1], arrivals[|arrivals| - 1];
      InTimeMeansAllowed(clock, known, front, id, validUntil);
      assert arrivals == front + [last];
      assert EventsOf(arrivals) == EventsOf(front) + {last.event};
    }
  }

  /** An event's id tells which event it is. */
  ghost predicate OneEventPerId(arrivals: seq<Arrival>) {
    forall a, b :: a in arrivals && b in arrivals && a.event.id == b.event.id ==> a.event == b.event
  }

  lemma {:induction false} LoggedOnArrival(s: Server, estate: EstateId, arrivals: seq<Arrival>, x: EventId)
    ensures x in SyncAll(s, estate, arrivals).log <==> x in s.log || exists ev :: ev in EventsOf(arrivals) && ev.id == x
  {
    if arrivals != [] {
      var front, last := arrivals[..|arrivals| - 1], arrivals[|arrivals| - 1];
      LoggedOnArrival(s, estate, front, x);
      assert arrivals == front + [last];
      assert EventsOf(arrivals) == EventsOf(front) + {last.event};
      hide Replay;
    }
  }

  /** Replaying changes a pass in one way only: an ACTIVE ONE_TIME pass newly allowed in time becomes USED. */
  function RowAfter(row: Invitation, allowedInTime: bool): Invitation {
    if row.policy == ONE_TIME && row.status == ACTIVE && allowedInTime then row.(status := USED) else row
  }

  /** What syncing keeps about a pass while its events come in. */
  predicate Tracks(db: Ledger, id: InvitationId, estate: EstateId) {
    id in db.invitations && db.invitations[id].estate == estate
    && (db.invitations[id].policy == ONE_TIME && db.invitations[id].status == ACTIVE ==> !HasOpenVisit(db.visits, id))
  }

  lemma ReplayOneRow(db: Ledger, estate: EstateId, ev: Event, id: InvitationId)
    requires Tracks(db, id, estate)
    ensures var row, db' := db.invitations[id], Replay(db, estate, ev).0;
      && Tracks(db', id, estate) && db'.clock == db.clock
      && db'.invitations[id] == RowAfter(row, AllowFor(ev, id) && db.clock <= row.validUntil)
  {
  }

  /** An event that is already logged when it arrives was known before, or came in earlier and then in no less time. */
  lemma RepeatsAddNothing(s: Server, estate: EstateId, front: seq<Arrival>, last: Arrival, id: InvitationId, validUntil: Time)
    requires OneEventPerId(front + [last]) && last.event.id in SyncAll(s, estate, front).log
    ensures AllowedInTime(s.db.clock, s.log.Keys, front + [last], id, validUntil) == AllowedInTime(s.db.clock, s.log.Keys, front, id, validUntil)
  {
    var arrivals := front + [last];
    assert arrivals[..|arrivals| - 1] == front;
    LoggedOnArrival(s, estate, front, last.event.id);
    if last.event.id !in s.log && AllowFor(last.event, id) && ClockAfter(s.db.clock, arrivals) <= validUntil {
      var ev :| ev in EventsOf(front) && ev.id == last.event.id;
      var a :| a in front && a.event == ev;
      assert a in arrivals && last in arrivals;
      InTimeMeansAllowed(s.db.clock, s.log.Keys, front, id, validUntil);
    }
  }

  lemma {:induction false} SyncedRow(s: Server, estate: EstateId, arrivals: seq<Arrival>, id: InvitationId)
    requires Tracks(s.db, id, estate) && OneEventPerId(arrivals)
    ensures var after := SyncAll(s, estate, arrivals).db;
      && Tracks(after, id, estate) && after.clock == ClockAfter(s.db.clock, arrivals)
      && after.invitations[id] == RowAfter(s.db.invitations[id], AllowedInTime(s.db.clock, s.log.Keys, arrivals, id, s.db.invitations[id].validUntil))
  {
    if arrivals != [] {
      var front, last := arrivals[..|arrivals| - 1], arrivals[|arrivals| - 1];
      assert arrivals == front + [last];
      SyncedRow(s, estate, front, id);
      var before := SyncAll(s, estate, front);
      LoggedOnArrival(s, estate, front, last.event.id);
      ReplayOneRow(Later(before.db, last.wait), estate, last.event, id);
      if last.event.id in before.log {
        RepeatsAddNothing(s, estate, front, last, id, s.db.invitations[id].validUntil);
      }
      hide Replay, HasOpenVisit;
    }
  }

  // ---- Agreement for one pass, exactly ----

  /**
   * A queued allow that leaves no trace: nothing new of it came in while the pass was ACTIVE and running, or the
   * pass was EXPIRED although its time is still running.
   */
  predicate LeavesNoTrace(row: Invitation, queuedAllow: bool, allowedInTime: bool) {
    row.policy == ONE_TIME && queuedAllow && ((row.status == ACTIVE && !allowedInTime) || row.status == EXPIRED)
  }

  lemma VerdictsAgree(row: Invitation, queuedAllow: bool, allowedInTime: bool, estate: EstateId, now: Time)
    requires Settled(row) && row.estate == estate && (allowedInTime ==> queuedAllow)
    ensures OfflineVerdict(row, queuedAllow, now) == Verdict(Some(RowAfter(row, allowedInTime)), estate, now)
      <==> !LeavesNoTrace(row, queuedAllow, allowedInTime)
  {
  }

  /** A pass whose time has not run out, as a manifest shows it. */
  predicate InSnapshot(db: Ledger, estate: EstateId, id: InvitationId) {
    id in db.invitations && db.invitations[id].estate == estate && db.clock <= db.invitations[id].validUntil
  }

  lemma SnapshotStatus(actions: seq<M.Action>, zone: Time -> int, estate: EstateId, id: InvitationId)
    requires InSnapshot(M.Run(actions, zone).db, estate, id)
    ensures Settled(M.Run(actions, zone).db.invitations[id]) && Tracks(M.Run(actions, zone).db, id, estate)
    ensures ExtensionsAtomic(actions) ==> M.Run(actions, zone).db.invitations[id].status != EXPIRED
  {
    RunSettles(actions, zone);
    if ExtensionsAtomic(actions) { AtomicRunKeepsExpiredPast(actions, zone); }
    RunKeepsInv(actions, zone);
    var db := M.Run(actions, zone).db;
    if HasOpenVisit(db.visits, id) {
      assert Admitted(db, id);
    }
  }

  /** The queue is keyed by event id, and all of it is on its way. */
  ghost predicate Carries(arrivals: seq<Arrival>, queue: map<EventId, Event>) {
    (forall x :: x in queue ==> queue[x].id == x) && EventsOf(arrivals) == queue.Values
  }

  lemma CarriedOnce(arrivals: seq<Arrival>, queue: map<EventId, Event>)
    requires Carries(arrivals, queue)
    ensures OneEventPerId(arrivals)
  {
    forall a | a in arrivals
      ensures a.event.id in queue && queue[a.event.id] == a.event
    {
      assert a.event in EventsOf(arrivals);
    }
  }

  /**
   * From any reachable state, any log and any queue: the two answers agree unless a queued allow of a ONE_TIME pass
   * leaves no trace on the server.
   */
  lemma AgreeExactly(actions: seq<M.Action>, zone: Time -> int, log: map<EventId, LogRow>, estate: EstateId, id: InvitationId,
                     queue: map<EventId, Event>, arrivals: seq<Arrival>, wait: nat)
    requires InSnapshot(M.Run(actions, zone).db, estate, id) && Carries(arrivals, queue)
    ensures var db := M.Run(actions, zone).db;
      var row, after := db.invitations[id], Later(SyncAll(Server(db, log), estate, arrivals).db, wait);
      OfflineVerdict(row, HasQueuedAllow(queue, id), after.clock) == Verdict(Lookup(after, Some(id)), estate, after.clock)
      <==> !LeavesNoTrace(row, HasQueuedAllow(queue, id), AllowedInTime(db.clock, log.Keys, arrivals, id, row.validUntil))
  {
    var db := M.Run(actions, zone).db;
    hide M.Run, Settled, Carries;
    var row := db.invitations[id];
    SnapshotStatus(actions, zone, estate, id);
    CarriedOnce(arrivals, queue);
    SyncedRow(Server(db, log), estate, arrivals, id);
    InTimeMeansAllowed(db.clock, log.Keys, arrivals, id, row.validUntil);
    NewAllowIsQueued(arrivals, queue, log.Keys, id);
    VerdictsAgree(row, HasQueuedAllow(queue, id), AllowedInTime(db.clock, log.Keys, arrivals, id, row.validUntil), estate,
                  ClockAfter(db.clock, arrivals) + wait);
  }

  lemma NewAllowIsQueued(arrivals: seq<Arrival>, queue: map<EventId, Event>, known: set<EventId>, id: InvitationId)
    requires Carries(arrivals, queue)
    ensures SomeNewAllow(EventsOf(arrivals), known, id) ==> HasQueuedAllow(queue, id)
  {
  }

  /**
   * If anything allowed is queued for a ONE_TIME pass, the pass was not left EXPIRED, and the server has not yet seen all
   * of it while the pass is ACTIVE.
   */
  ghost predicate WillShow(row: Invitation, queue: map<EventId, Event>, known: set<EventId>, id: InvitationId) {
    row.policy == ONE_TIME && HasQueuedAllow(queue, id) ==>
      row.status != EXPIRED && (row.status == ACTIVE ==> SomeNewAllow(queue.Values, known, id))
  }

  /** Until the pass runs out, what decides is known before the sync. */
  lemma AgreeWhileValid(actions: seq<M.Action>, zone: Time -> int, log: map<EventId, LogRow>, estate: EstateId, id: InvitationId,
                        queue: map<EventId, Event>, arrivals: seq<Arrival>, wait: nat)
    requires InSnapshot(M.Run(actions, zone).db, estate, id) && Carries(arrivals, queue)
    requires var db := M.Run(actions, zone).db; ClockAfter(db.clock, arrivals) + wait <= db.invitations[id].validUntil
    ensures var db := M.Run(actions, zone).db;
      var row, after := db.invitations[id], Later(SyncAll(Server(db, log), estate, arrivals).db, wait);
      OfflineVerdict(row, HasQueuedAllow(queue, id), after.clock) == Verdict(Lookup(after, Some(id)), estate, after.clock)
      <==> WillShow(row, queue, log.Keys, id)
  {
    var db := M.Run(actions, zone).db;
    hide M.Run, OfflineVerdict, Verdict, SyncAll;
    AgreeExactly(actions, zone, log, estate, id, queue, arrivals, wait);
    InTimeMeansAllowed(db.clock, log.Keys, arrivals, id, db.invitations[id].validUntil);
  }

  // ---- The whole scan, lookup included ----

  /** The row the server finds for a scan: by token among all rows, by code within the officer's estate. */
  ghost predicate ServerFinds(rows: map<InvitationId, Invitation>, estate: EstateId, how: Method, credential: string, found: Option<InvitationId>) {
    match found
    case Some(id) => id in rows && (if how == QR then rows[id].tokenHash == credential else rows[id].codeHash == credential && rows[id].estate == estate)
    case None => forall id :: id in rows ==>
      if how == QR then rows[id].tokenHash != credential else rows[id].codeHash != credential || rows[id].estate != estate
  }

  ghost predicate TokensUnique(rows: map<InvitationId, Invitation>) {
    forall a, b :: a in rows && b in rows && rows[a].tokenHash == rows[b].tokenHash ==> a == b
  }

  /** No two passes of one estate share a visitor code. */
  ghost predicate CodesDistinct(rows: map<InvitationId, Invitation>, estate: EstateId) {
    forall a, b :: a in rows && b in rows && rows[a].estate == estate && rows[b].estate == estate && rows[a].codeHash == rows[b].codeHash ==> a == b
  }

  lemma StepKeepsTokensUnique(g: M.Gate, a: M.Action, zone: Time -> int)
    requires Inv(g) && TokensUnique(g.db.invitations)
    ensures TokensUnique(M.Step(g, a, zone).db.invitations)
  {
    StepEvolvesRows(g, a, zone);
    OnlyCreateAddsRows(g, a, zone);
    hide M.Step, Inv;
  }

  lemma OnlyCreateAddsRows(g: M.Gate, a: M.Action, zone: Time -> int)
    ensures var rows, rows' := g.db.invitations, M.Step(g, a, zone).db.invitations;
      forall id :: id in rows' && id !in rows ==>
        a.Create? && a.id == id && rows'[id].tokenHash == a.draft.tokenHash && !TokenTaken(rows, a.draft.tokenHash)
  {
    hide TokenTaken, HasOpenVisit;
  }

  lemma {:induction false} RunKeepsTokensUnique(actions: seq<M.Action>, zone: Time -> int)
    ensures TokensUnique(M.Run(actions, zone).db.invitations)
  {
    if actions != [] {
      RunKeepsInv(actions[..|actions| - 1], zone);
      RunKeepsTokensUnique(actions[..|actions| - 1], zone);
      StepKeepsTokensUnique(M.Run(actions[..|actions| - 1], zone), actions[|actions| - 1], zone);
    }
  }

  lemma {:induction false} FindMatchIsSound(entries: seq<Entry>, how: Method, credential: string)
    ensures match FindMatch(entries, how, credential)
      case Some(e) => e in entries && HashOf(e.row, how) == credential
      case None => forall i :: 0 <= i < |entries| ==> HashOf(entries[i].row, how) != credential
  {
    if entries != [] {
      FindMatchIsSound(entries[1..], how, credential);
    }
  }

  /** The device finds the row the server finds if its manifest has it, and nothing otherwise. */
  lemma DeviceFindsTheSame(db: Ledger, estate: EstateId, recent: seq<InvitationId>, stored: seq<Entry>,
                           how: Method, credential: string, found: Option<InvitationId>)
    requires ListsCurrent(recent, db, estate) && TokensUnique(db.invitations) && Holds(stored, db, recent)
    requires how == MANUAL_CODE ==> CodesDistinct(db.invitations, estate)
    requires ServerFinds(db.invitations, estate, how, credential, found)
    ensures FindMatch(stored, how, credential)
            == if found.Some? && found.value in recent[..if |recent| < 2000 then |recent| else 2000]
               then Some(Entry(found.value, db.invitations[found.value])) else None
  {
    var entries := Manifest(db, recent);
    FindMatchIsSound(stored, how, credential);
    if found.Some? && found.value in InManifest(recent) {
      var i :| 0 <= i < |InManifest(recent)| && InManifest(recent)[i] == found.value;
      assert entries[i] == Entry(found.value, db.invitations[found.value]) && entries[i] in stored;
    }
    if FindMatch(stored, how, credential).Some? {
      var e := FindMatch(stored, how, credential).value;
      assert e in entries && e.id in InManifest(recent) && e.row == db.invitations[e.id];
    }
  }

  lemma {:induction false} EstatesStay(s: Server, estate: EstateId, arrivals: seq<Arrival>, id: InvitationId)
    requires id in s.db.invitations
    ensures var db' := SyncAll(s, estate, arrivals).db;
      && id in db'.invitations && db'.invitations[id].estate == s.db.invitations[id].estate
  {
    if arrivals != [] {
      EstatesStay(s, estate, arrivals[..|arrivals| - 1], id);
    }
  }

  /**
   * What the device needs to answer as the server will: the pass is in its manifest, rightly signed, and no queued allow
   * leaves no trace.
   */
  ghost predicate DeviceKnows(db: Ledger, log: map<EventId, LogRow>, recent: seq<InvitationId>, queue: map<EventId, Event>,
                              arrivals: seq<Arrival>, genuine: Entry -> bool, id: InvitationId)
    requires id in db.invitations
  {
    var row := db.invitations[id];
    && id in InManifest(recent) && genuine(Entry(id, row))
    && !LeavesNoTrace(row, HasQueuedAllow(queue, id), AllowedInTime(db.clock, log.Keys, arrivals, id, row.validUntil))
  }

  /**
   * Offline against online, for every scan, from any reachable state, log, queue and order of arrivals with repeats, at any
   * moment: the answers are the same exactly when the scan is no pass of this estate or the device knows what it needs.
   */
  lemma OfflineRefinesOnline(actions: seq<M.Action>, zone: Time -> int, log: map<EventId, LogRow>, estate: EstateId,
                             recent: seq<InvitationId>, stored: seq<Entry>,
                             queue: map<EventId, Event>, arrivals: seq<Arrival>, wait: nat,
                             how: Method, credential: string, found: Option<InvitationId>, genuine: Entry -> bool)
    requires Carries(arrivals, queue)
    requires ListsCurrent(recent, M.Run(actions, zone).db, estate) && Holds(stored, M.Run(actions, zone).db, recent)
    requires how == MANUAL_CODE ==> CodesDistinct(M.Run(actions, zone).db.invitations, estate)
    requires ServerFinds(M.Run(actions, zone).db.invitations, estate, how, credential, found)
    ensures var db := M.Run(actions, zone).db;
      var after := Later(SyncAll(Server(db, log), estate, arrivals).db, wait);
      VerifyOffline(stored, queue, how, credential, after.clock, genuine) == Verify(after, estate, found).1
      <==> (found.Some? && db.invitations[found.value].estate == estate ==>
              DeviceKnows(db, log, recent, queue, arrivals, genuine, found.value))
  {
    hide M.Run, LeavesNoTrace, FindMatch, SyncAll, Carries;
    var db := M.Run(actions, zone).db;
    RunKeepsTokensUnique(actions, zone);
    DeviceFindsTheSame(db, estate, recent, stored, how, credential, found);
    if found.Some? {
      EstatesStay(Server(db, log), estate, arrivals, found.value);
      if found.value in InManifest(recent) {
        AgreeExactly(actions, zone, log, estate, found.value, queue, arrivals, wait);
        VerdictsKnown(db.invitations[found.value], HasQueuedAllow(queue, found.value));
      }
    }
    hide OfflineVerdict;
  }

  lemma VerdictsKnown(row: Invitation, queuedAllow: bool)
    ensures forall now :: OfflineVerdict(row, queuedAllow, now) != UNKNOWN
  {
  }

  // ---- The three ways to disagree, each reached ----

  const ITS_QUEUE: map<EventId, Event> := map[7 := AN_ALLOW]

  lemma OneArrival(wait: nat)
    ensures Carries([Arrival(wait, AN_ALLOW)], ITS_QUEUE) && HasQueuedAllow(ITS_QUEUE, 0)
    ensures ClockAfter(0, [Arrival(wait, AN_ALLOW)]) == wait
  {
    var arrivals := [Arrival(wait, AN_ALLOW)];
    assert arrivals[0] in arrivals;
    assert ITS_QUEUE[7] in ITS_QUEUE.Values && forall e :: e in ITS_QUEUE.Values ==> e == AN_ALLOW;
    assert EventsOf(arrivals) == ITS_QUEUE.Values;
    assert arrivals[..0] == [];
  }

  /** The pass was left EXPIRED by a split extension: the entry that the device promised is refused, the scan says VALID. */
  lemma StrandedAllowDisagrees(zone: Time -> int)
    ensures var db := M.Run(SWEPT_WHILE_EXTENDING, zone).db;
      InSnapshot(db, 0, 0) &&
      var after := SyncAll(Server(db, map[]), 0, [Arrival(0, AN_ALLOW)]).db;
      OfflineVerdict(db.invitations[0], HasQueuedAllow(ITS_QUEUE, 0), after.clock) != Verdict(Lookup(after, Some(0)), 0, after.clock)
  {
    SplitExtensionCanDisagree(zone);
    OneArrival(0);
    AgreeExactly(SWEPT_WHILE_EXTENDING, zone, map[], 0, 0, ITS_QUEUE, [Arrival(0, AN_ALLOW)], 0);
    hide M.Run, SyncAll, Carries, OfflineVerdict, Verdict;
  }

  lemma CreatedPass(zone: Time -> int)
    ensures M.Run([M.Create(0, TEN_MINUTE_PASS)], zone).db
            == Ledger(0, map[0 := Invitation(0, 0, "token", "code", 0, 10 * MINUTE_MS, ACTIVE, ONE_TIME)], [], [], [InvitationEvent(0, CREATED)])
  {
    RunAppends([], M.Create(0, TEN_MINUTE_PASS), zone);
    assert [] + [M.Create(0, TEN_MINUTE_PASS)] == [M.Create(0, TEN_MINUTE_PASS)];
  }

  /** The allow reaches the server only after the pass ran out. */
  lemma LateAllowDisagrees(zone: Time -> int)
    ensures var db := M.Run([M.Create(0, TEN_MINUTE_PASS)], zone).db;
      InSnapshot(db, 0, 0) &&
      var after := SyncAll(Server(db, map[]), 0, [Arrival(11 * MINUTE_MS, AN_ALLOW)]).db;
      OfflineVerdict(db.invitations[0], HasQueuedAllow(ITS_QUEUE, 0), after.clock) != Verdict(Lookup(after, Some(0)), 0, after.clock)
  {
    var created, arrivals := [M.Create(0, TEN_MINUTE_PASS)], [Arrival(11 * MINUTE_MS, AN_ALLOW)];
    CreatedPass(zone);
    OneArrival(11 * MINUTE_MS);
    AgreeExactly(created, zone, map[], 0, 0, ITS_QUEUE, arrivals, 0);
    assert arrivals[..0] == [];
    hide M.Run, SyncAll, Carries, OfflineVerdict, Verdict;
  }

  const LATE: seq<M.Action> := [M.Create(0, TEN_MINUTE_PASS), M.Tick(11 * MINUTE_MS)]
  const EXTENDED_LATE: seq<M.Action> := LATE + [M.ExtendNow(0, 0, 0, 30, PLAIN_RULES)]

  lemma ExtendedLate(zone: Time -> int)
    ensures var late, db := M.Run(LATE, zone).db, M.Run(EXTENDED_LATE, zone).db;
      && SyncOne(Server(late, map[]), 0, AN_ALLOW) == (Server(late, map[7 := LogRow(AN_ALLOW, FAILED)]), Failed(7, Forbidden))
      && InSnapshot(db, 0, 0) && db.invitations[0].status == ACTIVE && db.invitations[0].policy == ONE_TIME
  {
    var created := [M.Create(0, TEN_MINUTE_PASS)];
    CreatedPass(zone);
    RunAppends(created, M.Tick(11 * MINUTE_MS), zone);
    RunAppends(LATE, M.ExtendNow(0, 0, 0, 30, PLAIN_RULES), zone);
    assert created + [M.Tick(11 * MINUTE_MS)] == LATE;
    hide M.Run;
  }

  /**
   * The server refused the allow because the pass had run out, the answer was lost, and the resident then extended the
   * pass: the event is still queued, and syncing it again does nothing.
   */
  lemma RefusedThenExtendedDisagrees(zone: Time -> int)
    ensures var late, db := M.Run(LATE, zone).db, M.Run(EXTENDED_LATE, zone).db;
      var log := SyncOne(Server(late, map[]), 0, AN_ALLOW).0.log;
      SyncOne(Server(late, map[]), 0, AN_ALLOW).0.db == late && InSnapshot(db, 0, 0) &&
      var after := SyncAll(Server(db, log), 0, [Arrival(0, AN_ALLOW)]).db;
      OfflineVerdict(db.invitations[0], HasQueuedAllow(ITS_QUEUE, 0), after.clock) != Verdict(Lookup(after, Some(0)), 0, after.clock)
  {
    var arrivals := [Arrival(0, AN_ALLOW)];
    ExtendedLate(zone);
    OneArrival(0);
    AgreeExactly(EXTENDED_LATE, zone, map[7 := LogRow(AN_ALLOW, FAILED)], 0, 0, ITS_QUEUE, arrivals, 0);
    assert arrivals[..0] == [];
    hide M.Run, SyncAll, SyncOne, Carries, OfflineVerdict, Verdict;
  }
}
