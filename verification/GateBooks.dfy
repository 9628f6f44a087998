/** The visit ledger balances: who is inside, what the events say, and how many entries and exits there were. */
module GateBooks {
  import opened Domain
  import opened ExtensionRules
  import opened GateLedger
  import opened GateMachine

  // ---- What the listings and the event log show ----

  /** The estate of every visit, by visit id. */
  function Owners(db: Ledger): seq<EstateId>
    requires VisitsKnown(db)
  {
    seq(|db.visits|, i requires 0 <= i < |db.visits| => db.invitations[db.visits[i].invitation].estate)
  }

  ghost predicate VisitsKnown(db: Ledger) {
    forall i :: 0 <= i < |db.visits| ==> db.visits[i].invitation in db.invitations
  }

  /** "Who is currently inside?", newest entry first. */
  function CurrentlyInside(visits: seq<Visit>, owners: seq<EstateId>, estate: EstateId): seq<VisitId>
    requires |owners| == |visits|
  {
    if visits == [] then []
    else
      var last := |visits| - 1;
      (if IsOpen(visits[last]) && owners[last] == estate then [last] else [])
        + CurrentlyInside(visits[..last], owners[..last], estate)
  }

  function CountEvents(events: seq<GateEvent>, owners: seq<EstateId>, estate: EstateId, kind: GateEventKind): nat {
    if events == [] then 0
    else
      var e := events[|events| - 1];
      CountEvents(events[..|events| - 1], owners, estate, kind)
        + if e.kind == kind && e.visit < |owners| && owners[e.visit] == estate then 1 else 0
  }

  /** The ENTERED and EXITED marks in one invitation's history. */
  function Marks(history: seq<InvitationEvent>, id: InvitationId): seq<InvitationEventKind> {
    if history == [] then []
    else
      var e := history[|history| - 1];
      Marks(history[..|history| - 1], id) + if e.invitation == id && (e.kind == ENTERED || e.kind == EXITED) then [e.kind] else []
  }

  predicate Alternates(marks: seq<InvitationEventKind>) {
    forall i :: 0 <= i < |marks| ==> marks[i] == if i % 2 == 0 then ENTERED else EXITED
  }

  // ---- The invariant ----

  ghost predicate OneOpenVisitEach(visits: seq<Visit>) {
    forall i, j :: 0 <= i < j < |visits| && IsOpen(visits[i]) && IsOpen(visits[j]) ==> visits[i].invitation != visits[j].invitation
  }

  ghost predicate MarksMatchVisits(db: Ledger) {
    forall id: InvitationId :: Alternates(Marks(db.history, id)) && (HasOpenVisit(db.visits, id) <==> |Marks(db.history, id)| % 2 == 1)
  }

  ghost predicate Balanced(db: Ledger)
    requires VisitsKnown(db)
  {
    && (forall i :: 0 <= i < |db.gateEvents| ==> db.gateEvents[i].visit < |db.visits|)
    && forall estate: EstateId ::
         CountEvents(db.gateEvents, Owners(db), estate, ENTRY) - CountEvents(db.gateEvents, Owners(db), estate, EXIT)
         == |CurrentlyInside(db.visits, Owners(db), estate)|
  }

  ghost predicate InTimeOrder(db: Ledger) {
    forall i :: 0 <= i < |db.visits| ==>
      && db.visits[i].enteredAt.Some? && db.visits[i].enteredAt.value <= db.clock
      && (i > 0 && db.visits[i - 1].enteredAt.Some? ==> db.visits[i - 1].enteredAt.value <= db.visits[i].enteredAt.value)
  }

  ghost predicate Books(db: Ledger) {
    VisitsKnown(db) && OneOpenVisitEach(db.visits) && MarksMatchVisits(db) && Balanced(db) && InTimeOrder(db)
  }

  // ---- Entry ----

  lemma CountSurvivesNewVisit(events: seq<GateEvent>, owners: seq<EstateId>, owner: EstateId, estate: EstateId, kind: GateEventKind)
    requires forall i :: 0 <= i < |events| ==> events[i].visit < |owners|
    ensures CountEvents(events, owners + [owner], estate, kind) == CountEvents(events, owners, estate, kind)
  {
  }

  lemma EntryKeepsVisits(db: Ledger, id: InvitationId, policy: EntryPolicy)
    requires VisitsKnown(db) && OneOpenVisitEach(db.visits) && InTimeOrder(db) && id in db.invitations
    ensures var db' := CommitEntry(db, id, policy).0;
      VisitsKnown(db') && OneOpenVisitEach(db'.visits) && InTimeOrder(db')
  {
  }

  lemma EntryKeepsBalance(db: Ledger, id: InvitationId, policy: EntryPolicy)
    requires VisitsKnown(db) && Balanced(db) && id in db.invitations && CommitEntry(db, id, policy).1.Ok?
    ensures VisitsKnown(CommitEntry(db, id, policy).0) && Balanced(CommitEntry(db, id, policy).0)
  {
    var db' := CommitEntry(db, id, policy).0;
    var owner := db.invitations[id].estate;
    var was, now := Owners(db), Owners(db');
    assert now == was + [owner];
    assert db'.visits[..|db.visits|] == db.visits && now[..|db.visits|] == was;
    assert db'.gateEvents[..|db.gateEvents|] == db.gateEvents;
    hide Owners, HasOpenVisit;
    forall estate: EstateId
      ensures CountEvents(db'.gateEvents, now, estate, ENTRY) - CountEvents(db'.gateEvents, now, estate, EXIT)
              == |CurrentlyInside(db'.visits, now, estate)|
    {
      CountSurvivesNewVisit(db.gateEvents, was, owner, estate, ENTRY);
      CountSurvivesNewVisit(db.gateEvents, was, owner, estate, EXIT);
    }
  }

  lemma EntryKeepsBooks(db: Ledger, id: InvitationId, policy: EntryPolicy)
    requires Books(db) && id in db.invitations
    ensures Books(CommitEntry(db, id, policy).0)
  {
    if CommitEntry(db, id, policy).1.Ok? {
      EntryKeepsVisits(db, id, policy);
      EntryKeepsBalance(db, id, policy);
      EntryKeepsMarks(db, id, policy);
    }
    hide Balanced, MarksMatchVisits, OneOpenVisitEach, InTimeOrder, VisitsKnown, HasOpenVisit;
  }

  lemma EntryKeepsMarks(db: Ledger, id: InvitationId, policy: EntryPolicy)
    requires MarksMatchVisits(db) && id in db.invitations && CommitEntry(db, id, policy).1.Ok?
    ensures MarksMatchVisits(CommitEntry(db, id, policy).0)
  {
    var db' := CommitEntry(db, id, policy).0;
    assert db'.history[..|db.history|] == db.history;
    forall k: InvitationId
      ensures Alternates(Marks(db'.history, k)) && (HasOpenVisit(db'.visits, k) <==> |Marks(db'.history, k)| % 2 == 1)
    {
      if k == id {
        assert db'.visits[|db.visits|].invitation == k && IsOpen(db'.visits[|db.visits|]);
      } else if HasOpenVisit(db.visits, k) {
        var i :| 0 <= i < |db.visits| && db.visits[i].invitation == k && IsOpen(db.visits[i]);
        assert db'.visits[i] == db.visits[i];
      }
    }
  }

  // ---- Exit ----

  /** Closing one visit takes exactly that visit off its own estate's list. */
  lemma {:induction false} ClosingRemovesOne(visits: seq<Visit>, owners: seq<EstateId>, k: nat, closed: Visit, estate: EstateId)
    requires |owners| == |visits| && k < |visits| && IsOpen(visits[k]) && !IsOpen(closed)
    ensures |CurrentlyInside(visits[k := closed], owners, estate)|
            == |CurrentlyInside(visits, owners, estate)| - if owners[k] == estate then 1 else 0
  {
    var last := |visits| - 1;
    if k < last {
      assert visits[k := closed][..last] == visits[..last][k := closed];
      ClosingRemovesOne(visits[..last], owners[..last], k, closed, estate);
    } else {
      assert visits[k := closed][..last] == visits[..last];
    }
  }

  lemma ExitKeepsBalance(db: Ledger, estate: EstateId, visit: VisitId)
    requires VisitsKnown(db) && Balanced(db) && RecordExit(db, estate, visit).1.Ok?
    ensures VisitsKnown(RecordExit(db, estate, visit).0) && Balanced(RecordExit(db, estate, visit).0)
  {
    var db' := RecordExit(db, estate, visit).0;
    var owners := Owners(db);
    assert Owners(db') == owners;
    assert db'.gateEvents[..|db.gateEvents|] == db.gateEvents;
    hide Owners;
    forall e: EstateId
      ensures CountEvents(db'.gateEvents, owners, e, ENTRY) - CountEvents(db'.gateEvents, owners, e, EXIT)
              == |CurrentlyInside(db'.visits, owners, e)|
    {
      ClosingRemovesOne(db.visits, owners, visit, db'.visits[visit], e);
    }
  }

  lemma ExitKeepsVisits(db: Ledger, estate: EstateId, visit: VisitId)
    requires VisitsKnown(db) && OneOpenVisitEach(db.visits) && InTimeOrder(db)
    ensures var db' := RecordExit(db, estate, visit).0;
      VisitsKnown(db') && OneOpenVisitEach(db'.visits) && InTimeOrder(db')
  {
  }

  lemma ExitKeepsBooks(db: Ledger, estate: EstateId, visit: VisitId)
    requires Books(db)
    ensures Books(RecordExit(db, estate, visit).0)
  {
    if RecordExit(db, estate, visit).1.Ok? {
      ExitKeepsVisits(db, estate, visit);
      ExitKeepsBalance(db, estate, visit);
      ExitKeepsMarks(db, estate, visit);
    }
    hide Balanced, MarksMatchVisits, OneOpenVisitEach, InTimeOrder, VisitsKnown;
  }

  lemma ExitKeepsMarks(db: Ledger, estate: EstateId, visit: VisitId)
    requires OneOpenVisitEach(db.visits) && MarksMatchVisits(db) && RecordExit(db, estate, visit).1.Ok?
    ensures MarksMatchVisits(RecordExit(db, estate, visit).0)
  {
    var db' := RecordExit(db, estate, visit).0;
    var id := db.visits[visit].invitation;
    assert db'.history[..|db.history|] == db.history;
    assert HasOpenVisit(db.visits, id) by { assert IsOpen(db.visits[visit]); }
    forall k: InvitationId
      ensures Alternates(Marks(db'.history, k)) && (HasOpenVisit(db'.visits, k) <==> |Marks(db'.history, k)| % 2 == 1)
    {
      if k != id && HasOpenVisit(db.visits, k) {
        var i :| 0 <= i < |db.visits| && db.visits[i].invitation == k && IsOpen(db.visits[i]);
        assert db'.visits[i] == db.visits[i];
      }
    }
  }

  // ---- Everything else ----

  predicate TouchesVisits(a: Action) {
    a.FinishEntry? || a.Enter? || a.Exit?
  }

  /** Nothing but a CREATED or WITHDRAWN event is added. */
  ghost predicate NoNewMark(history: seq<InvitationEvent>, history': seq<InvitationEvent>) {
    history' == history
    || (exists e :: history' == history + [e] && (e.kind == CREATED || e.kind == WITHDRAWN))
  }

  ghost predicate Quiet(db: Ledger, db': Ledger) {
    && db'.visits == db.visits && db'.gateEvents == db.gateEvents && db.clock <= db'.clock
    && NoNewMark(db.history, db'.history)
    && forall id :: id in db.invitations ==> id in db'.invitations && db'.invitations[id].estate == db.invitations[id].estate
  }

  /** An operation that leaves visits and events alone keeps the books if it moves no row to another estate. */
  lemma QuietOperationKeepsBooks(db: Ledger, db': Ledger)
    requires Books(db) && Quiet(db, db')
    ensures Books(db')
  {
    QuietKeepsMarks(db, db');
    assert VisitsKnown(db') && Owners(db') == Owners(db);
    hide MarksMatchVisits, Owners, NoNewMark;
  }

  lemma QuietKeepsMarks(db: Ledger, db': Ledger)
    requires MarksMatchVisits(db) && db'.visits == db.visits && NoNewMark(db.history, db'.history)
    ensures MarksMatchVisits(db')
  {
    if db'.history != db.history {
      assert db'.history[..|db.history|] == db.history;
    }
    forall id: InvitationId
      ensures Marks(db'.history, id) == Marks(db.history, id)
    {
    }
    hide Marks;
  }

  lemma OtherStepsAreQuiet(g: Gate, a: Action, zone: Time -> int)
    requires !TouchesVisits(a)
    ensures Quiet(g.db, Step(g, a, zone).db)
  {
    hide EvaluateExtension, TokenTaken;
    match a
    case Create(id, draft) =>
      if CreateInvitation(g.db, id, draft).1.Ok? {
        assert Step(g, a, zone).db.history == g.db.history + [InvitationEvent(id, CREATED)];
      }
    case Withdraw(resident, estate, id) =>
      if Owns(g.db, resident, estate, id) {
        assert Step(g, a, zone).db.history == g.db.history + [InvitationEvent(id, WITHDRAWN)];
      }
    case _ =>
  }

  lemma StepKeepsBooks(g: Gate, a: Action, zone: Time -> int)
    requires Books(g.db)
    ensures Books(Step(g, a, zone).db)
  {
    if !TouchesVisits(a) {
      OtherStepsAreQuiet(g, a, zone);
      QuietOperationKeepsBooks(g.db, Step(g, a, zone).db);
    } else {
      match a
      case FinishEntry(r) =>
        if r in g.requests && g.requests[r].EntryRequest? && g.requests[r].id in g.db.invitations {
          EntryKeepsBooks(g.db, g.requests[r].id, g.requests[r].policy);
        }
      case Enter(estate, id) =>
        if CheckEntry(g.db, estate, id).Ok? {
          EntryKeepsBooks(g.db, id, CheckEntry(g.db, estate, id).value);
        }
      case Exit(estate, visit) => ExitKeepsBooks(g.db, estate, visit);
    }
  }

  lemma {:induction false} RunKeepsBooks(actions: seq<Action>, zone: Time -> int)
    ensures Books(Run(actions, zone).db)
  {
    if actions != [] {
      RunKeepsBooks(actions[..|actions| - 1], zone);
      StepKeepsBooks(Run(actions[..|actions| - 1], zone), actions[|actions| - 1], zone);
    }
  }

  // ---- What a reader of the ledger may rely on ----

  function OpenVisitsOf(db: Ledger, id: InvitationId): set<VisitId> {
    set i | 0 <= i < |db.visits| && db.visits[i].invitation == id && IsOpen(db.visits[i])
  }

  /**
   * Each invitation's history reads ENTERED, EXITED, ENTERED, ...; it has one open visit after ENTERED and none
   * otherwise.
   */
  lemma HistoryAlternates(actions: seq<Action>, zone: Time -> int, id: InvitationId)
    ensures Alternates(Marks(Run(actions, zone).db.history, id))
    ensures |OpenVisitsOf(Run(actions, zone).db, id)| == |Marks(Run(actions, zone).db.history, id)| % 2
  {
    RunKeepsBooks(actions, zone);
    var db := Run(actions, zone).db;
    if HasOpenVisit(db.visits, id) {
      var i :| 0 <= i < |db.visits| && db.visits[i].invitation == id && IsOpen(db.visits[i]);
      assert OpenVisitsOf(db, id) == {i};
    } else {
      assert OpenVisitsOf(db, id) == {};
    }
  }

  /** For each estate, entries minus exits is the number of people inside. */
  lemma EntriesMinusExits(actions: seq<Action>, zone: Time -> int, estate: EstateId)
    ensures VisitsKnown(Run(actions, zone).db)
    ensures var db := Run(actions, zone).db;
      CountEvents(db.gateEvents, Owners(db), estate, ENTRY)
      == CountEvents(db.gateEvents, Owners(db), estate, EXIT) + |CurrentlyInside(db.visits, Owners(db), estate)|
  {
    RunKeepsBooks(actions, zone);
  }

  /** The list holds exactly the estate's open visits, each once, later ids first. */
  lemma {:induction false} InsideListIsExact(visits: seq<Visit>, owners: seq<EstateId>, estate: EstateId)
    requires |owners| == |visits|
    ensures var list := CurrentlyInside(visits, owners, estate);
      && (forall v :: v in list <==> 0 <= v < |visits| && IsOpen(visits[v]) && owners[v] == estate)
      && (forall i, j :: 0 <= i < j < |list| ==> list[j] < list[i])
  {
    if visits != [] {
      var last := |visits| - 1;
      InsideListIsExact(visits[..last], owners[..last], estate);
      var rest := CurrentlyInside(visits[..last], owners[..last], estate);
      assert CurrentlyInside(visits, owners, estate) == (if IsOpen(visits[last]) && owners[last] == estate then [last] else []) + rest;
      hide CurrentlyInside, IsOpen;
      assert forall i :: 0 <= i < |rest| ==> rest[i] in rest;
    }
  }

  lemma {:induction false} EntryTimesAscend(db: Ledger, i: nat, j: nat)
    requires InTimeOrder(db) && i <= j < |db.visits|
    ensures db.visits[i].enteredAt.value <= db.visits[j].enteredAt.value
  {
    if i < j {
      EntryTimesAscend(db, i, j - 1);
    }
  }

  /** Later ids first is newest entry first, the order the listing asks the database for. */
  lemma InsideListIsNewestFirst(actions: seq<Action>, zone: Time -> int, estate: EstateId, i: nat, j: nat)
    requires VisitsKnown(Run(actions, zone).db)
    requires var db := Run(actions, zone).db; i < j < |CurrentlyInside(db.visits, Owners(db), estate)|
    ensures var db := Run(actions, zone).db;
      var list := CurrentlyInside(db.visits, Owners(db), estate);
      && list[i] < |db.visits| && list[j] < |db.visits|
      && db.visits[list[i]].enteredAt.Some? && db.visits[list[j]].enteredAt.Some?
      && db.visits[list[j]].enteredAt.value <= db.visits[list[i]].enteredAt.value
  {
    var db := Run(actions, zone).db;
    RunKeepsBooks(actions, zone);
    InsideListIsExact(db.visits, Owners(db), estate);
    var list := CurrentlyInside(db.visits, Owners(db), estate);
    assert list[i] in list && list[j] in list;
    EntryTimesAscend(db, list[j], list[i]);
  }
}
