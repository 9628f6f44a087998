/**
 * Scans and link views in two halves: the row is read as overdue, and marked EXPIRED later whatever it has become. One-time
 * use then depends on no such write coming late.
 */
module GateLookups {
  import opened Domain
  import opened ExtensionRules
  import opened GateLedger
  import opened GateOneTime
  import opened GateExpiry
  import M = GateMachine

  type LookupId = nat

  /** The gate and the rows about to be marked EXPIRED. */
  datatype Desk = Desk(gate: M.Gate, lookups: map<LookupId, InvitationId>)

  const EMPTY_DESK := Desk(M.EMPTY_GATE, map[])

  datatype Action =
    | Gate(action: M.Action)
    | StartScan(lookup: LookupId, estate: EstateId, found: Option<InvitationId>)
    | StartView(lookup: LookupId, found: Option<InvitationId>)
    | MarkExpired(lookup: LookupId)

  /** A scan goes on to mark the row only when it is past its end and not yet EXPIRED. */
  predicate ScanWillMark(db: Ledger, estate: EstateId, found: Option<InvitationId>) {
    Verdict(Lookup(db, found), estate, db.clock) == PAST && Lookup(db, found).value.status != EXPIRED
  }

  /** A link view does so for every row past its end that is neither withdrawn nor used. */
  predicate ViewWillMark(db: Ledger, found: Option<InvitationId>) {
    Lookup(db, found).Some? &&
    var row := Lookup(db, found).value;
    !Withdrawn(row.status) && row.validUntil < db.clock && row.status != USED
  }

  function Started(s: Desk, lookup: LookupId, id: InvitationId): Desk {
    if lookup in s.lookups then s else s.(lookups := s.lookups[lookup := id])
  }

  function Marked(s: Desk, lookup: LookupId): Desk {
    if lookup in s.lookups && s.lookups[lookup] in s.gate.db.invitations then
      var id, db := s.lookups[lookup], s.gate.db;
      Desk(s.gate.(db := SetRow(db, id, db.invitations[id].(status := EXPIRED))), s.lookups - {lookup})
    else s
  }

  function Step(s: Desk, a: Action, zone: Time -> int): Desk {
    match a
    case Gate(action) => s.(gate := M.Step(s.gate, action, zone))
    case StartScan(lookup, estate, found) => if ScanWillMark(s.gate.db, estate, found) then Started(s, lookup, found.value) else s
    case StartView(lookup, found) => if ViewWillMark(s.gate.db, found) then Started(s, lookup, found.value) else s
    case MarkExpired(lookup) => Marked(s, lookup)
  }

  function Run(actions: seq<Action>, zone: Time -> int): Desk {
    if actions == [] then EMPTY_DESK
    else Step(Run(actions[..|actions| - 1], zone), actions[|actions| - 1], zone)
  }

  /** With nothing between their halves, scans and link views are the gate's own single steps. */
  lemma UninterruptedIsAtomic(s: Desk, lookup: LookupId, estate: EstateId, found: Option<InvitationId>, zone: Time -> int)
    requires lookup !in s.lookups
    ensures Step(Step(s, StartScan(lookup, estate, found), zone), MarkExpired(lookup), zone) == Step(s, Gate(M.Scan(estate, found)), zone)
    ensures Step(Step(s, StartView(lookup, found), zone), MarkExpired(lookup), zone) == Step(s, Gate(M.ViewLink(found)), zone)
  {
    assert s.lookups[lookup := 0] - {lookup} == s.lookups;
    if ScanWillMark(s.gate.db, estate, found) || ViewWillMark(s.gate.db, found) {
      assert s.lookups[lookup := found.value] - {lookup} == s.lookups;
    }
    if Lookup(s.gate.db, found).Some? {
      var rows, row := s.gate.db.invitations, s.gate.db.invitations[found.value];
      assert row.status == EXPIRED ==> rows[found.value := row.(status := EXPIRED)] == rows;
    }
  }

  /** Withdrawn, or used and good for one entry only. */
  predicate Over(row: Invitation) {
    Withdrawn(row.status) || (row.policy == ONE_TIME && row.status == USED)
  }

  /** The write that marks this pass finds that it has been used or withdrawn since it was read. */
  predicate Late(s: Desk, a: Action, id: InvitationId) {
    a.MarkExpired? && a.lookup in s.lookups && s.lookups[a.lookup] == id && id in s.gate.db.invitations && Over(s.gate.db.invitations[id])
  }

  ghost predicate NothingLate(actions: seq<Action>, zone: Time -> int, id: InvitationId) {
    forall k :: 0 <= k < |actions| ==> !Late(Run(actions[..k], zone), actions[k], id)
  }

  lemma OnTimeSplits(actions: seq<Action>, zone: Time -> int, id: InvitationId)
    requires actions != []
    ensures var front, a := actions[..|actions| - 1], actions[|actions| - 1];
      NothingLate(actions, zone, id) <==> NothingLate(front, zone, id) && !Late(Run(front, zone), a, id)
  {
    hide Run, Late;
    var front := actions[..|actions| - 1];
    forall k | 0 <= k < |front|
      ensures actions[..k] == front[..k] && actions[k] == front[k]
    {
    }
    assert actions[..|front|] == front;
  }

  // ---- The invariant of one pass, whatever happens to the others ----

  function PassOf(r: M.Request): InvitationId {
    match r
    case EntryRequest(id, _) => id
    case ExtensionRequest(p) => p.id
  }

  ghost predicate RequestsRemember(g: M.Gate, id: InvitationId) {
    forall r :: r in g.requests && PassOf(g.requests[r]) == id ==> Remembers(g.requests[r], g.db.invitations)
  }

  /** No visit of an unknown pass, and of a ONE_TIME pass at most one, after which it is over. */
  ghost predicate VisitsFit(db: Ledger, id: InvitationId) {
    && (Admitted(db, id) ==> id in db.invitations)
    && (id in db.invitations && db.invitations[id].policy == ONE_TIME ==>
          && (Admitted(db, id) ==> Over(db.invitations[id]))
          && forall i, j :: 0 <= i < j < |db.visits| ==> !(db.visits[i].invitation == id && db.visits[j].invitation == id))
  }

  ghost predicate PassInv(g: M.Gate, id: InvitationId) {
    RequestsRemember(g, id) && VisitsFit(g.db, id)
  }

  predicate RowEvolves(before: map<InvitationId, Invitation>, after: map<InvitationId, Invitation>, id: InvitationId) {
    id in before ==> id in after && Evolves(before[id], after[id])
  }

  lemma ExtensionEvolvesRow(g: M.Gate, request: M.RequestId, zone: Time -> int, id: InvitationId)
    requires RequestsRemember(g, id)
    ensures RowEvolves(g.db.invitations, M.Step(g, M.FinishExtension(request), zone).db.invitations, id)
  {
    if request in g.requests && g.requests[request].ExtensionRequest? && g.requests[request].pending.id == id {
      assert PassOf(g.requests[request]) == id;
      CommittedExtensionEvolves(g.db, g.requests[request].pending);
    }
  }

  /** Extensions aside, a step of the gate needs nothing of what requests remember. */
  lemma StepEvolvesRow(g: M.Gate, a: M.Action, zone: Time -> int, id: InvitationId)
    requires RequestsRemember(g, id)
    ensures RowEvolves(g.db.invitations, M.Step(g, a, zone).db.invitations, id)
  {
    var after := M.Step(g, a, zone).db.invitations;
    if a.FinishExtension? {
      ExtensionEvolvesRow(g, a.request, zone, id);
    } else {
      hide DecideExtension, CommitExtension, CommitEntry, Verify, OpenLink, ExpireAll, ExpireOne, CreateInvitation, Revoke, RecordExit;
      match a
      case ExtendNow(resident, estate, pass, minutes, rules) =>
        DecidedIsRemembered(g.db, resident, estate, pass, minutes, rules, zone);
        var decided := DecideExtension(g.db, resident, estate, pass, minutes, rules, zone);
        if decided.Ok? { CommittedExtensionEvolves(g.db, decided.value); }
      case FinishEntry(request) =>
        if request in g.requests && g.requests[request].EntryRequest? && g.requests[request].id in g.db.invitations {
          CommittedEntryEvolves(g.db, g.requests[request].id, g.requests[request].policy);
        }
      case Enter(estate, pass) =>
        if CheckEntry(g.db, estate, pass).Ok? { CommittedEntryEvolves(g.db, pass, CheckEntry(g.db, estate, pass).value); }
      case Scan(estate, found) => LookupsEvolve(g.db, estate, found);
      case ViewLink(found) => LookupsEvolve(g.db, 0, found);
      case SweepOld(at) => SweepsEvolve(g.db.invitations, 0, at);
      case SweepOne(pass, at) => SweepsEvolve(g.db.invitations, pass, at);
      case _ => OthersEvolve(g, a, zone);
    }
  }

  lemma EvolvedIsRemembered(r: M.Request, before: map<InvitationId, Invitation>, after: map<InvitationId, Invitation>)
    requires Remembers(r, before) && RowEvolves(before, after, PassOf(r))
    ensures Remembers(r, after)
  {
  }

  lemma StepKeepsRemembering(g: M.Gate, a: M.Action, zone: Time -> int, id: InvitationId)
    requires RequestsRemember(g, id)
    ensures RequestsRemember(M.Step(g, a, zone), id)
  {
    var g' := M.Step(g, a, zone);
    StepEvolvesRow(g, a, zone, id);
    if a.StartExtension? {
      DecidedIsRemembered(g.db, a.resident, a.estate, a.id, a.minutes, a.rules, zone);
    }
    hide DecideExtension, CommitExtension, CommitEntry, RowEvolves;
    forall r | r in g'.requests && PassOf(g'.requests[r]) == id
      ensures Remembers(g'.requests[r], g'.db.invitations)
    {
      if r in g.requests && g'.requests[r] == g.requests[r] {
        EvolvedIsRemembered(g.requests[r], g.db.invitations, g'.db.invitations);
      }
    }
  }

  /** At most one visit is added; and one added to a ONE_TIME pass is its first and uses it. */
  ghost predicate AdmitsPassOnce(before: Ledger, after: Ledger, id: InvitationId) {
    && |before.visits| <= |after.visits| <= |before.visits| + 1
    && (forall i :: 0 <= i < |before.visits| ==> after.visits[i].invitation == before.visits[i].invitation)
    && (|after.visits| > |before.visits| && after.visits[|before.visits|].invitation == id ==>
          && id in before.invitations && id in after.invitations
          && (before.invitations[id].policy == ONE_TIME ==> !Admitted(before, id) && after.invitations[id].status == USED))
  }

  lemma StepAdmitsPassOnce(g: M.Gate, a: M.Action, zone: Time -> int, id: InvitationId)
    requires PassInv(g, id)
    ensures AdmitsPassOnce(g.db, M.Step(g, a, zone).db, id)
  {
    hide DecideExtension, EvaluateExtension, TokenTaken, HasOpenVisit, Evolves;
  }

  lemma EvolutionKeepsVisitsFit(before: Ledger, after: Ledger, id: InvitationId)
    requires VisitsFit(before, id) && RowEvolves(before.invitations, after.invitations, id) && AdmitsPassOnce(before, after, id)
    ensures VisitsFit(after, id)
  {
    if Admitted(after, id) {
      var i :| 0 <= i < |after.visits| && after.visits[i].invitation == id;
      if i < |before.visits| { assert before.visits[i].invitation == id && Admitted(before, id); }
    }
    if j :| 0 <= j < |before.visits| && before.visits[j].invitation == id { assert Admitted(before, id); }
  }

  // ---- One write ----

  /** It changes its row only as every other step may exactly when it is not late. */
  lemma MarkingEvolvesExactly(s: Desk, lookup: LookupId, id: InvitationId)
    ensures RowEvolves(s.gate.db.invitations, Marked(s, lookup).gate.db.invitations, id) <==> !Late(s, MarkExpired(lookup), id)
  {
  }

  lemma MarkingKeepsPassInv(s: Desk, lookup: LookupId, id: InvitationId)
    requires PassInv(s.gate, id) && !Late(s, MarkExpired(lookup), id)
    ensures PassInv(Marked(s, lookup).gate, id)
  {
    var g, g' := s.gate, Marked(s, lookup).gate;
    MarkingEvolvesExactly(s, lookup, id);
    assert AdmitsPassOnce(g.db, g'.db, id) && g'.requests == g.requests;
    EvolutionKeepsVisitsFit(g.db, g'.db, id);
    hide RowEvolves, Marked, AdmitsPassOnce, VisitsFit;
    forall r | r in g.requests && PassOf(g.requests[r]) == id
      ensures Remembers(g.requests[r], g'.db.invitations)
    {
      EvolvedIsRemembered(g.requests[r], g.db.invitations, g'.db.invitations);
    }
  }

  lemma StepKeepsPassInv(s: Desk, a: Action, zone: Time -> int, id: InvitationId)
    requires PassInv(s.gate, id) && !Late(s, a, id)
    ensures PassInv(Step(s, a, zone).gate, id)
  {
    hide M.Step, Marked, VisitsFit, RequestsRemember, Evolves, AdmitsPassOnce;
    match a
    case Gate(action) =>
      StepKeepsRemembering(s.gate, action, zone, id);
      StepEvolvesRow(s.gate, action, zone, id);
      StepAdmitsPassOnce(s.gate, action, zone, id);
      EvolutionKeepsVisitsFit(s.gate.db, M.Step(s.gate, action, zone).db, id);
    case MarkExpired(lookup) => MarkingKeepsPassInv(s, lookup, id);
    case _ =>
  }

  lemma {:induction false} RunKeepsPassInv(actions: seq<Action>, zone: Time -> int, id: InvitationId)
    requires NothingLate(actions, zone, id)
    ensures PassInv(Run(actions, zone).gate, id)
  {
    if actions != [] {
      hide PassInv, Step, Late, NothingLate;
      OnTimeSplits(actions, zone, id);
      RunKeepsPassInv(actions[..|actions| - 1], zone, id);
      StepKeepsPassInv(Run(actions[..|actions| - 1], zone), actions[|actions| - 1], zone, id);
    }
  }

  /** A ONE_TIME pass of which no mark comes late has at most one visit, whatever happens to the others. */
  lemma OneTimeWhenNothingLate(actions: seq<Action>, zone: Time -> int, id: InvitationId)
    requires NothingLate(actions, zone, id)
    requires id in Run(actions, zone).gate.db.invitations && Run(actions, zone).gate.db.invitations[id].policy == ONE_TIME
    ensures |VisitsOf(Run(actions, zone).gate.db, id)| <= 1
  {
    hide Run, NothingLate, RequestsRemember, VisitsFit, VisitsOf;
    RunKeepsPassInv(actions, zone, id);
    FittingVisits(Run(actions, zone).gate.db, id);
  }

  lemma FittingVisits(db: Ledger, id: InvitationId)
    requires VisitsFit(db, id) && id in db.invitations && db.invitations[id].policy == ONE_TIME
    ensures |VisitsOf(db, id)| <= 1
  {
    var visits := VisitsOf(db, id);
    if visits != {} {
      var v :| v in visits;
      assert visits == {v};
    }
  }

  // ---- Passes that are over stay over ----

  predicate OverStays(before: map<InvitationId, Invitation>, after: map<InvitationId, Invitation>, id: InvitationId) {
    id in before && Over(before[id]) ==> id in after && Over(after[id])
  }

  ghost predicate OverStaysThroughout(actions: seq<Action>, zone: Time -> int, id: InvitationId) {
    forall k :: 0 <= k < |actions| ==>
      OverStays(Run(actions[..k], zone).gate.db.invitations, Step(Run(actions[..k], zone), actions[k], zone).gate.db.invitations, id)
  }

  lemma StepKeepsOverExactly(s: Desk, a: Action, zone: Time -> int, id: InvitationId)
    requires PassInv(s.gate, id)
    ensures OverStays(s.gate.db.invitations, Step(s, a, zone).gate.db.invitations, id) <==> !Late(s, a, id)
  {
    hide VisitsFit;
    match a
    case Gate(action) =>
      StepEvolvesRow(s.gate, action, zone, id);
      hide M.Step, RequestsRemember;
    case MarkExpired(lookup) => hide RequestsRemember;
    case _ => hide RequestsRemember;
  }

  lemma ThroughoutSplits(actions: seq<Action>, zone: Time -> int, id: InvitationId)
    requires actions != []
    ensures var front, a := actions[..|actions| - 1], actions[|actions| - 1];
      var s := Run(front, zone);
      OverStaysThroughout(actions, zone, id) <==>
        OverStaysThroughout(front, zone, id) && OverStays(s.gate.db.invitations, Step(s, a, zone).gate.db.invitations, id)
  {
    hide Run, Step, OverStays;
    var front := actions[..|actions| - 1];
    forall k | 0 <= k < |front|
      ensures actions[..k] == front[..k] && actions[k] == front[k]
    {
    }
    assert actions[..|front|] == front;
  }

  /** Throughout a run, a pass once used or withdrawn stays so if and only if no expiry mark of it comes late. */
  lemma {:induction false} OverStaysExactly(actions: seq<Action>, zone: Time -> int, id: InvitationId)
    ensures OverStaysThroughout(actions, zone, id) <==> NothingLate(actions, zone, id)
  {
    if actions != [] {
      var front, a := actions[..|actions| - 1], actions[|actions| - 1];
      OverStaysExactly(front, zone, id);
      OnTimeSplits(actions, zone, id);
      ThroughoutSplits(actions, zone, id);
      hide Run, Step, Late, OverStays, OverStaysThroughout, NothingLate, PassInv;
      if NothingLate(front, zone, id) {
        RunKeepsPassInv(front, zone, id);
        StepKeepsOverExactly(Run(front, zone), a, zone, id);
      }
    }
  }

  // ---- What a late mark does ----

  /**
   * A scan reads the pass as past its end; before it marks it, the pass is extended and used. The mark turns USED into
   * EXPIRED, the next extension makes it ACTIVE, and it is good for a second entry.
   */
  const MARKED_LATE: seq<Action> := [
    Gate(M.Create(0, TEN_MINUTE_PASS)), Gate(M.Tick(11 * MINUTE_MS)), StartScan(0, 0, Some(0)),
    Gate(M.ExtendNow(0, 0, 0, 30, PLAIN_RULES)), Gate(M.Enter(0, 0)), Gate(M.Exit(0, 0)), MarkExpired(0),
    Gate(M.ExtendNow(0, 0, 0, 30, PLAIN_RULES)), Gate(M.Enter(0, 0))]

  lemma RunTakes(actions: seq<Action>, k: nat, zone: Time -> int)
    requires k < |actions|
    ensures Run(actions[..k + 1], zone) == Step(Run(actions[..k], zone), actions[k], zone)
  {
    assert actions[..k + 1][..k] == actions[..k];
  }

  function TenMinutePass(until: Time, status: Status): Invitation {
    Invitation(0, 0, "token", "code", 0, until, status, ONE_TIME)
  }

  /** The scan has read the pass and not yet marked it. */
  lemma ScanReadsPast(zone: Time -> int)
    ensures Run(MARKED_LATE[..3], zone) ==
      Desk(M.Gate(Ledger(11 * MINUTE_MS, map[0 := TenMinutePass(10 * MINUTE_MS, ACTIVE)], [], [], [InvitationEvent(0, CREATED)]), map[]),
           map[0 := 0])
  {
    RunTakes(MARKED_LATE, 0, zone);
    RunTakes(MARKED_LATE, 1, zone);
    RunTakes(MARKED_LATE, 2, zone);
    assert MARKED_LATE[..0] == [];
  }

  /** Half an hour more, from now or from the pass's own end if that is later. */
  lemma ExtendsByHalfAnHour(db: Ledger, until: Time, status: Status, zone: Time -> int)
    requires db.invitations == map[0 := TenMinutePass(until, status)] && (status == ACTIVE || status == EXPIRED)
    requires db.clock == 11 * MINUTE_MS && 0 < until <= 41 * MINUTE_MS
    ensures Extend(db, 0, 0, 0, 30, PLAIN_RULES, zone).0
            == db.(invitations := map[0 := TenMinutePass((if until < db.clock then db.clock else until) + 30 * MINUTE_MS, ACTIVE)])
  {
  }

  lemma EntersAndIsUsed(db: Ledger, until: Time)
    requires db.invitations == map[0 := TenMinutePass(until, ACTIVE)] && db.clock <= until && !HasOpenVisit(db.visits, 0)
    ensures var after := RecordEntry(db, 0, 0).0;
      && after.clock == db.clock && after.invitations == map[0 := TenMinutePass(until, USED)]
      && after.visits == db.visits + [Visit(0, Some(db.clock), None)]
  {
    hide HasOpenVisit;
  }

  lemma TakesGate(s: Desk, action: M.Action, zone: Time -> int)
    requires action.ExtendNow? || action.Enter? || action.Exit?
    ensures var s', db := Step(s, Gate(action), zone), s.gate.db;
      && s'.lookups == s.lookups && s'.gate.requests == s.gate.requests
      && (action.ExtendNow? ==> s'.gate.db == Extend(db, action.resident, action.estate, action.id, action.minutes, action.rules, zone).0)
      && (action.Enter? ==> s'.gate.db == RecordEntry(db, action.estate, action.id).0)
      && (action.Exit? ==> s'.gate.db == RecordExit(db, action.estate, action.visit).0)
  {
    hide Extend, RecordEntry, RecordExit;
  }

  const EXTENDED := Gate(M.ExtendNow(0, 0, 0, 30, PLAIN_RULES))
  const ENTERED_ONCE := Gate(M.Enter(0, 0))

  /** A pass that ran out, or was marked so, is extended and then entered with. */
  lemma ExtendedAndEntered(s: Desk, until: Time, status: Status, zone: Time -> int)
    requires s.gate.db.invitations == map[0 := TenMinutePass(until, status)] && (status == ACTIVE || status == EXPIRED)
    requires s.gate.db.clock == 11 * MINUTE_MS && 0 < until <= 41 * MINUTE_MS && !HasOpenVisit(s.gate.db.visits, 0)
    ensures var db, s' := s.gate.db, Step(Step(s, EXTENDED, zone), ENTERED_ONCE, zone);
      && s'.lookups == s.lookups && s'.gate.db.clock == db.clock && s'.gate.db.visits == db.visits + [Visit(0, Some(db.clock), None)]
      && s'.gate.db.invitations == map[0 := TenMinutePass((if until < db.clock then db.clock else until) + 30 * MINUTE_MS, USED)]
  {
    hide Step, Extend, RecordEntry, HasOpenVisit;
    var s1 := Step(s, EXTENDED, zone);
    TakesGate(s, EXTENDED.action, zone);
    ExtendsByHalfAnHour(s.gate.db, until, status, zone);
    TakesGate(s1, ENTERED_ONCE.action, zone);
    EntersAndIsUsed(s1.gate.db, s1.gate.db.invitations[0].validUntil);
  }

  /** The visitor leaves, and the scan's mark makes the used pass EXPIRED. */
  lemma LeftAndMarked(s: Desk, zone: Time -> int)
    requires s.lookups == map[0 := 0] && s.gate.db.invitations == map[0 := TenMinutePass(41 * MINUTE_MS, USED)]
    requires s.gate.db.visits == [Visit(0, Some(s.gate.db.clock), None)]
    ensures var s' := Step(Step(s, Gate(M.Exit(0, 0)), zone), MarkExpired(0), zone);
      && s'.gate.db.invitations == map[0 := TenMinutePass(41 * MINUTE_MS, EXPIRED)] && s'.gate.db.clock == s.gate.db.clock
      && s'.gate.db.visits == [Visit(0, Some(s.gate.db.clock), Some(s.gate.db.clock))]
  {
  }

  lemma TakesTwo(actions: seq<Action>, k: nat, n: nat, a: Action, b: Action, zone: Time -> int)
    requires n == k + 2 <= |actions| && actions[k] == a && actions[k + 1] == b
    ensures Run(actions[..n], zone) == Step(Step(Run(actions[..k], zone), a, zone), b, zone)
  {
    RunTakes(actions, k, zone);
    RunTakes(actions, k + 1, zone);
    hide Run, Step;
  }

  lemma TwoByTwo(zone: Time -> int)
    ensures var s3, s5, s7 := Run(MARKED_LATE[..3], zone), Run(MARKED_LATE[..5], zone), Run(MARKED_LATE[..7], zone);
      && s5 == Step(Step(s3, EXTENDED, zone), ENTERED_ONCE, zone)
      && s7 == Step(Step(s5, Gate(M.Exit(0, 0)), zone), MarkExpired(0), zone)
      && Run(MARKED_LATE, zone) == Step(Step(s7, EXTENDED, zone), ENTERED_ONCE, zone)
  {
    hide Run, Step;
    TakesTwo(MARKED_LATE, 3, 5, EXTENDED, ENTERED_ONCE, zone);
    TakesTwo(MARKED_LATE, 5, 7, Gate(M.Exit(0, 0)), MarkExpired(0), zone);
    TakesTwo(MARKED_LATE, 7, 9, EXTENDED, ENTERED_ONCE, zone);
    assert MARKED_LATE[..9] == MARKED_LATE;
  }

  /** So a late mark lets a ONE_TIME pass in twice. */
  lemma MarkedLateAdmitsTwice(zone: Time -> int)
    ensures var db := Run(MARKED_LATE, zone).gate.db;
      0 in db.invitations && db.invitations[0].policy == ONE_TIME && VisitsOf(db, 0) == {0, 1}
  {
    hide Run, Step;
    TwoByTwo(zone);
    ScanReadsPast(zone);
    var s3, s5, s7 := Run(MARKED_LATE[..3], zone), Run(MARKED_LATE[..5], zone), Run(MARKED_LATE[..7], zone);
    ExtendedAndEntered(s3, 10 * MINUTE_MS, ACTIVE, zone);
    LeftAndMarked(s5, zone);
    ExtendedAndEntered(s7, 41 * MINUTE_MS, EXPIRED, zone);
  }
}
