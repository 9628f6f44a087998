/** What a guard is told after a scan: the answer against the clock, the checks and the history. */
module RecurringAnswers {
  import opened Domain
  import opened Texts
  import opened RecurringRules
  import opened RecurringScan

  /** No check, each on its own, stands in the way of the scan. */
  ghost predicate NothingBlocks(s: Scan, zone: Zone) {
    forall check :: !Blocks(check, Some(s.pass), s.exceptions, s.blacklisted, zone(s.now), s.codes, s.presented)
  }

  /** A scan less than ten seconds after the last allowed one. */
  predicate TooSoon(history: seq<ScanRow>, now: Time) {
    LastAllowed(history).Some? && now - LastAllowed(history).value.at < 10_000
  }

  lemma {:induction false} LastAllowedIsAllowed(history: seq<ScanRow>)
    ensures LastAllowed(history).Some? ==> LastAllowed(history).value.verdict.Allowed? && LastAllowed(history).value in history
    ensures LastAllowed(history).None? <==> forall row :: row in history ==> row.verdict.Denied?
  {
    if history != [] {
      var front, last := history[..|history| - 1], history[|history| - 1];
      LastAllowedIsAllowed(front);
      assert history == front + [last];
    }
  }

  /**
   * A scan is answered as a duplicate exactly when the last allowed one is less than ten seconds old, with that one's
   * direction and no new row. Any other scan adds exactly one row, of its own time: allowed, in the direction that is next,
   * if no check blocks it, and otherwise denied for the first check that does.
   */
  lemma ScanIsAnsweredExactly(history: seq<ScanRow>, s: Scan, zone: Zone)
    ensures var (after, response) := Record(history, s, zone);
      && (response.answer.Duplicate? <==> TooSoon(history, s.now))
      && (response.answer.Duplicate? ==>
            after == history && LastAllowed(history).value.verdict == Allowed(response.answer.direction))
      && (response.answer.Recorded? ==>
            var verdict := response.answer.verdict;
            && after == history + [ScanRow(s.now, verdict)]
            && (NothingBlocks(s, zone) ==> verdict == Allowed(NextDirection(history, s.now, zone)))
            && (!NothingBlocks(s, zone) ==>
                  && verdict.Denied?
                  && Blocks(verdict.reason, Some(s.pass), s.exceptions, s.blacklisted, zone(s.now), s.codes, s.presented)
                  && forall check :: Rank(check) < Rank(verdict.reason) ==>
                       !Blocks(check, Some(s.pass), s.exceptions, s.blacklisted, zone(s.now), s.codes, s.presented)))
  {
    LastAllowedIsAllowed(history);
    var local, last := zone(s.now), LastAllowed(history);
    DecisionIsFirstBlock(Some(s.pass), s.exceptions, s.blacklisted, local, s.codes, s.presented,
                         if PreviousVisitOpen(last, local, zone) then None else DirectionOf(last));
    hide EvaluateRecurringScan, Blocks, LastAllowed;
  }

  /** Over runs: a scan that nothing blocks, ten seconds or more after the last allowed one, makes its date's list one longer. */
  lemma UnblockedScanCounts(scans: seq<Scan>, s: Scan, zone: Zone)
    requires Forward(zone) && InOrder(scans + [s]) && NothingBlocks(s, zone) && !TooSoon(Run(scans, zone), s.now)
    ensures var date := zone(s.now).date;
      var before, after := AllowedOn(Run(scans, zone), zone, date), AllowedOn(Run(scans + [s], zone), zone, date);
      after == before + [if |before| % 2 == 0 then IN else OUT]
  {
    var history := Run(scans, zone);
    assert (scans + [s])[..|scans|] == scans;
    ScanIsAnsweredExactly(history, s, zone);
    hide Record, NothingBlocks, Run;
    OrderedFront(scans, s);
    RunKeeps(scans, zone);
    var before := if scans == [] then s.now else scans[|scans| - 1].now;
    if scans == [] { NothingKept(zone, s.now); }
    Appended(history, ScanRow(s.now, Allowed(NextDirection(history, s.now, zone))), zone, zone(s.now).date);
    NextContinues(history, zone, before, s.now);
  }

  lemma OrderedFront(scans: seq<Scan>, s: Scan)
    requires InOrder(scans + [s])
    ensures InOrder(scans) && (scans != [] ==> scans[|scans| - 1].now <= s.now)
  {
    forall i | 0 < i < |scans|
      ensures scans[i - 1].now <= scans[i].now
    {
      assert (scans + [s])[i - 1].now <= (scans + [s])[i].now;
    }
    if scans != [] { assert (scans + [s])[|scans| - 1].now <= (scans + [s])[|scans|].now; }
  }

  /**
   * The guard is told of a visit left open exactly when the last allowed scan is IN and of an earlier date, and of someone
   * overdue exactly then or when they are still in after today's hours and the grace.
   */
  lemma GuardIsTold(scans: seq<Scan>, s: Scan, zone: Zone)
    requires Forward(zone) && InOrder(scans + [s])
    ensures var history, response := Run(scans, zone), Record(Run(scans, zone), s, zone).1;
      var today := AllowedOn(history, zone, zone(s.now).date);
      && (response.previousVisitOpen <==>
            today == [] && LastAllowed(history).Some? && LastAllowed(history).value.verdict == Allowed(IN))
      && (response.overdue <==>
            response.previousVisitOpen
            || (|today| % 2 == 1 && zone(s.now).minute > s.pass.endMinute + s.pass.graceMinutes))
  {
    var history := Run(scans, zone);
    OrderedFront(scans, s);
    RunKeeps(scans, zone);
    var before := if scans == [] then s.now else scans[|scans| - 1].now;
    if scans == [] { NothingKept(zone, s.now); }
    NextContinues(history, zone, before, s.now);
    var last := LastAllowed(history);
    if last.Some? {
      TextOrderTotal(zone(last.value.at).date, zone(s.now).date);
      assert !TextBefore(zone(s.now).date, zone(last.value.at).date);
    }
    hide Run, EvaluateRecurringScan, LastAllowed;
  }
}
