/** The times in the visit table: who writes them, when an exit succeeds, and that they stay. */
module GateVisits {
  import opened Domain
  import opened GateLedger
  import opened GateMachine
  import opened GateOneTime
  import opened GateBooks

  // ---- One step ----

  /** Nothing but an exit of this open visit at this moment, which writes its time and nothing else. */
  predicate VisitGoesOn(before: Visit, after: Visit, exits: bool, now: Time) {
    after == before || (exits && before.exitedAt == None && after == Visit(before.invitation, before.enteredAt, Some(now)))
  }

  /** At most one visit is added, and it was entered at that moment. */
  ghost predicate VisitsGoOn(before: Ledger, after: Ledger, a: Action) {
    && |before.visits| <= |after.visits| <= |before.visits| + 1
    && (forall v :: 0 <= v < |before.visits| ==>
          VisitGoesOn(before.visits[v], after.visits[v], a.Exit? && a.visit == v, before.clock))
    && (|after.visits| > |before.visits| ==>
          after.visits[|before.visits|] == Visit(after.visits[|before.visits|].invitation, Some(before.clock), None))
  }

  lemma StepWritesTimes(g: Gate, a: Action, zone: Time -> int)
    ensures VisitsGoOn(g.db, Step(g, a, zone).db, a)
  {
    hide DecideExtension, TokenTaken, HasOpenVisit;
  }

  // ---- Over runs ----

  /** Every visit ever recorded keeps its pass and its entry time, and its exit time once it has one. */
  lemma {:induction false} TimesStay(earlier: seq<Action>, later: seq<Action>, zone: Time -> int, v: VisitId)
    requires v < |Run(earlier, zone).db.visits|
    ensures v < |Run(earlier + later, zone).db.visits|
    ensures var before, after := Run(earlier, zone).db.visits[v], Run(earlier + later, zone).db.visits[v];
      && after.invitation == before.invitation && after.enteredAt == before.enteredAt
      && (before.exitedAt.Some? ==> after.exitedAt == before.exitedAt)
  {
    hide Step, Run;
    if later == [] {
      assert earlier + later == earlier;
    } else {
      var shorter, a := later[..|later| - 1], later[|later| - 1];
      TimesStay(earlier, shorter, zone, v);
      StepWritesTimes(Run(earlier + shorter, zone), a, zone);
      RunAppends(earlier + shorter, a, zone);
      assert earlier + later == earlier + shorter + [a];
    }
  }

  /**
   * In every run an exit succeeds exactly for a visit of the officer's estate that is still open; a visit that has ended is
   * a conflict.
   */
  lemma ExitSucceedsExactly(actions: seq<Action>, zone: Time -> int, estate: EstateId, visit: VisitId)
    ensures var db := Run(actions, zone).db;
      var (after, r) := RecordExit(db, estate, visit);
      var known := visit < |db.visits| && db.visits[visit].invitation in db.invitations
                   && db.invitations[db.visits[visit].invitation].estate == estate;
      && (r.Ok? <==> known && db.visits[visit].exitedAt == None)
      && (r == Err(NotFound) <==> !known) && (r == Err(Conflict) <==> known && db.visits[visit].exitedAt.Some?)
      && (r.Err? ==> after == db)
  {
    RunKeepsBooks(actions, zone);
    hide Run, MarksMatchVisits, Balanced, OneOpenVisitEach;
  }

  /**
   * An exit writes the time it is made at into that visit and leaves every other visit as it is; and whatever follows, the
   * visit keeps both its times.
   */
  lemma ExitIsRecorded(earlier: seq<Action>, later: seq<Action>, zone: Time -> int, estate: EstateId, visit: VisitId)
    requires RecordExit(Run(earlier, zone).db, estate, visit).1.Ok?
    ensures var before, at := Run(earlier, zone).db, Run(earlier + [Exit(estate, visit)], zone).db;
      var after := Run(earlier + [Exit(estate, visit)] + later, zone).db;
      && visit < |before.visits| && visit < |after.visits|
      && at.visits == before.visits[visit := Visit(before.visits[visit].invitation, before.visits[visit].enteredAt, Some(before.clock))]
      && after.visits[visit] == Visit(before.visits[visit].invitation, before.visits[visit].enteredAt, Some(before.clock))
      && before.visits[visit].enteredAt.Some? && before.visits[visit].enteredAt.value <= before.clock
  {
    RunKeepsBooks(earlier, zone);
    RunAppends(earlier, Exit(estate, visit), zone);
    assert InTimeOrder(Run(earlier, zone).db);
    hide Run, Books;
    TimesStay(earlier + [Exit(estate, visit)], later, zone, visit);
  }

  /** An entry that is accepted adds one visit of that pass, entered at that moment, which keeps that time whatever follows. */
  lemma EntryIsRecorded(earlier: seq<Action>, later: seq<Action>, zone: Time -> int, estate: EstateId, id: InvitationId)
    requires RecordEntry(Run(earlier, zone).db, estate, id).1.Ok?
    ensures var before, at := Run(earlier, zone).db, Run(earlier + [Enter(estate, id)], zone).db;
      var after := Run(earlier + [Enter(estate, id)] + later, zone).db;
      && RecordEntry(before, estate, id).1.value == |before.visits| < |after.visits|
      && at.visits == before.visits + [Visit(id, Some(before.clock), None)]
      && after.visits[|before.visits|].invitation == id && after.visits[|before.visits|].enteredAt == Some(before.clock)
  {
    RunAppends(earlier, Enter(estate, id), zone);
    hide Run, HasOpenVisit;
    TimesStay(earlier + [Enter(estate, id)], later, zone, |Run(earlier, zone).db.visits|);
  }
}
