/**
 * Scans of one pass in two halves: the last allowed scan is read and the decision made, and the row is written later, with
 * the time it is written at. Two guards may scan the same pass at once.
 */
module RecurringOverlaps {
  import opened Domain
  import opened Texts
  import opened RecurringRules
  import opened RecurringScan

  type ScanId = nat

  /** A decision waiting to be written: what it was based on and when it was made. */
  datatype Reading = Reading(last: Option<ScanRow>, verdict: Verdict, at: Time)

  datatype Desk = Desk(history: seq<ScanRow>, readings: map<ScanId, Reading>, clock: Time)

  datatype Action = Tick(elapsed: nat) | Read(scan: ScanId, asked: Scan) | Write(scan: ScanId)

  function RowOf(s: Desk, scan: ScanId): ScanRow
    requires scan in s.readings
  {
    ScanRow(s.clock, s.readings[scan].verdict)
  }

  function Step(s: Desk, a: Action, zone: Zone): Desk {
    match a
    case Tick(elapsed) => s.(clock := s.clock + elapsed)
    case Read(scan, asked) =>
      var answer := Record(s.history, asked, zone).1.answer;
      if asked.now == s.clock && scan !in s.readings && answer.Recorded?
      then s.(readings := s.readings[scan := Reading(LastAllowed(s.history), answer.verdict, s.clock)])
      else s
    case Write(scan) =>
      if scan in s.readings then s.(history := s.history + [RowOf(s, scan)], readings := s.readings - {scan}) else s
  }

  function Run(actions: seq<Action>, zone: Zone): Desk {
    if actions == [] then Desk([], map[], 0)
    else Step(Run(actions[..|actions| - 1], zone), actions[|actions| - 1], zone)
  }

  // ---- One row ----

  /** A row keeps the history in order if and only if it goes the way the history then says. */
  lemma RowKeepsExactly(history: seq<ScanRow>, row: ScanRow, zone: Zone, before: Time)
    requires Forward(zone) && WellKept(history, zone, before) && before <= row.at
    ensures WellKept(history + [row], zone, row.at) <==> Follows(history, row, zone)
  {
    if row.verdict.Denied? {
      DeniedKeepsRest(history, row, zone);
    } else if Follows(history, row, zone) {
      AllowedKeeps(history, row, zone, before);
    } else {
      StrayBreaks(history, row, zone, before);
    }
  }

  lemma StrayBreaks(history: seq<ScanRow>, row: ScanRow, zone: Zone, before: Time)
    requires Forward(zone) && WellKept(history, zone, before) && before <= row.at && row.verdict.Allowed? && !Follows(history, row, zone)
    ensures !InOutInOut(AllowedOn(history + [row], zone, zone(row.at).date)) || !SpacedOut(AllowedTimes(history + [row]))
  {
    var on, times := AllowedOn(history, zone, zone(row.at).date), AllowedTimes(history);
    Appended(history, row, zone, zone(row.at).date);
    NextContinues(history, zone, before, row.at);
    if row.verdict.direction != NextDirection(history, row.at, zone) {
      assert (on + [row.verdict.direction])[|on|] == row.verdict.direction;
    } else {
      assert (times + [row.at])[|times|] - (times + [row.at])[|times| - 1] < DUPLICATE_SCAN_MS;
    }
  }

  /** Nothing the decision rests on has changed when it is written: neither the last allowed scan nor the date. */
  predicate AsRead(s: Desk, scan: ScanId, zone: Zone)
    requires scan in s.readings
  {
    LastAllowed(s.history) == s.readings[scan].last && zone(s.clock).date == zone(s.readings[scan].at).date
  }

  /** What a decision rests on is part of it. */
  ghost predicate Sound(r: Reading, zone: Zone, clock: Time) {
    r.at <= clock &&
    (r.verdict.Allowed? ==>
       && r.verdict.direction == NextAfter(r.last, zone(r.at), zone)
       && (r.last.Some? && r.last.value.verdict.Allowed? ==> r.at - r.last.value.at >= DUPLICATE_SCAN_MS))
  }

  lemma AsReadFollows(s: Desk, scan: ScanId, zone: Zone)
    requires scan in s.readings && Sound(s.readings[scan], zone, s.clock) && AsRead(s, scan, zone)
    ensures Follows(s.history, RowOf(s, scan), zone)
  {
  }

  // ---- Runs ----

  ghost predicate AllSound(s: Desk, zone: Zone) {
    forall scan :: scan in s.readings ==> Sound(s.readings[scan], zone, s.clock)
  }

  lemma StepKeepsSound(s: Desk, a: Action, zone: Zone)
    requires AllSound(s, zone)
    ensures AllSound(Step(s, a, zone), zone)
  {
    if a.Read? {
      RecordedRowFollows(s.history, a.asked, zone);
    }
    hide Record, LastAllowed;
  }

  lemma {:induction false} RunKeepsSound(actions: seq<Action>, zone: Zone)
    ensures AllSound(Run(actions, zone), zone)
  {
    if actions != [] {
      hide Step, AllSound;
      RunKeepsSound(actions[..|actions| - 1], zone);
      StepKeepsSound(Run(actions[..|actions| - 1], zone), actions[|actions| - 1], zone);
    } else {
      assert Run([], zone).readings == map[];
    }
  }

  /** A row written against the way the history goes by then. */
  predicate Strays(s: Desk, a: Action, zone: Zone) {
    a.Write? && a.scan in s.readings && !Follows(s.history, RowOf(s, a.scan), zone)
  }

  ghost predicate NothingStrays(actions: seq<Action>, zone: Zone) {
    forall k :: 0 <= k < |actions| ==> !Strays(Run(actions[..k], zone), actions[k], zone)
  }

  ghost predicate KeptThroughout(actions: seq<Action>, zone: Zone) {
    forall k :: 0 <= k <= |actions| ==> KeptAt(actions, k, zone)
  }

  ghost predicate KeptAt(actions: seq<Action>, k: nat, zone: Zone)
    requires k <= |actions|
  {
    Kept(Run(actions[..k], zone), zone)
  }

  ghost predicate Kept(s: Desk, zone: Zone) {
    WellKept(s.history, zone, s.clock)
  }

  lemma StepKeepsExactly(s: Desk, a: Action, zone: Zone)
    requires Forward(zone) && Kept(s, zone)
    ensures Kept(Step(s, a, zone), zone) <==> !Strays(s, a, zone)
  {
    if a.Write? && a.scan in s.readings {
      RowKeepsExactly(s.history, RowOf(s, a.scan), zone, s.clock);
    }
    hide Record, Follows, AllowedOn, AllowedTimes, LastAllowed, InOutInOut, SpacedOut;
  }

  lemma StraysSplit(actions: seq<Action>, zone: Zone)
    requires actions != []
    ensures var front, a := actions[..|actions| - 1], actions[|actions| - 1];
      NothingStrays(actions, zone) <==> NothingStrays(front, zone) && !Strays(Run(front, zone), a, zone)
  {
    hide Run, Strays;
    var front := actions[..|actions| - 1];
    forall k | 0 <= k < |front|
      ensures actions[..k] == front[..k] && actions[k] == front[k]
    {
    }
    assert actions[..|front|] == front;
  }

  lemma KeptSplit(actions: seq<Action>, zone: Zone)
    requires actions != []
    ensures KeptThroughout(actions, zone) <==> KeptThroughout(actions[..|actions| - 1], zone) && Kept(Run(actions, zone), zone)
  {
    hide Run, Kept;
    var front := actions[..|actions| - 1];
    forall k | 0 <= k <= |front|
      ensures KeptAt(actions, k, zone) == KeptAt(front, k, zone)
    {
      assert actions[..k] == front[..k];
    }
    assert actions[..|actions|] == actions;
    assert KeptAt(actions, |actions|, zone) == Kept(Run(actions, zone), zone);
    hide KeptAt;
  }

  /** The history is in order throughout a run if and only if no row is written against the way it goes by then. */
  lemma {:induction false} KeptThroughoutExactly(actions: seq<Action>, zone: Zone)
    requires Forward(zone)
    ensures KeptThroughout(actions, zone) <==> NothingStrays(actions, zone)
  {
    if actions == [] {
      NothingKept(zone, 0);
      assert actions[..0] == [];
      assert KeptAt(actions, 0, zone);
    } else {
      var front := actions[..|actions| - 1];
      KeptThroughoutExactly(front, zone);
      StraysSplit(actions, zone);
      KeptSplit(actions, zone);
      assert front[..|front|] == front;
      assert Run(actions, zone) == Step(Run(front, zone), actions[|actions| - 1], zone);
      assert KeptThroughout(front, zone) ==> KeptAt(front, |front|, zone);
      hide Run, Step, Kept, Strays, KeptThroughout, NothingStrays;
      if KeptThroughout(front, zone) {
        StepKeepsExactly(Run(front, zone), actions[|actions| - 1], zone);
      }
    }
  }

  /** So the order is kept when every decision still rests on what it read as it is written. */
  lemma UndisturbedRunIsKept(actions: seq<Action>, zone: Zone)
    requires Forward(zone)
    requires forall k :: 0 <= k < |actions| && actions[k].Write? && actions[k].scan in Run(actions[..k], zone).readings ==>
      AsRead(Run(actions[..k], zone), actions[k].scan, zone)
    ensures KeptThroughout(actions, zone)
  {
    hide Run, Follows, Sound, AsRead;
    forall k | 0 <= k < |actions|
      ensures !Strays(Run(actions[..k], zone), actions[k], zone)
    {
      var s := Run(actions[..k], zone);
      RunKeepsSound(actions[..k], zone);
      if actions[k].Write? && actions[k].scan in s.readings {
        AsReadFollows(s, actions[k].scan, zone);
      }
    }
    KeptThroughoutExactly(actions, zone);
  }

  /** Two guards scan the same arrival at once. */
  function TwoAtOnce(s: Scan): seq<Action>
    requires 0 <= s.now
  {
    [Tick(s.now), Read(0, s), Read(1, s), Write(0), Write(1)]
  }

  lemma RunAppends(actions: seq<Action>, a: Action, zone: Zone)
    ensures Run(actions + [a], zone) == Step(Run(actions, zone), a, zone)
  {
    assert (actions + [a])[..|actions|] == actions;
  }

  lemma TwoAtOnceRun(s: Scan, zone: Zone)
    requires 0 <= s.now
    ensures Run(TwoAtOnce(s), zone)
            == Step(Step(Step(Step(Desk([], map[], s.now), Read(0, s), zone), Read(1, s), zone), Write(0), zone), Write(1), zone)
  {
    assert Run([], zone) == Desk([], map[], 0) && Step(Desk([], map[], 0), Tick(s.now), zone) == Desk([], map[], s.now);
    hide Step, Run;
    var one, two, three := [Tick(s.now)], [Tick(s.now), Read(0, s)], [Tick(s.now), Read(0, s), Read(1, s)];
    assert [] + one == one && one + [Read(0, s)] == two && two + [Read(1, s)] == three && three + [Write(0)] + [Write(1)] == TwoAtOnce(s);
    RunAppends([], Tick(s.now), zone);
    RunAppends(one, Read(0, s), zone);
    RunAppends(two, Read(1, s), zone);
    RunAppends(three, Write(0), zone);
    RunAppends(three + [Write(0)], Write(1), zone);
  }

  /** Then both rows say IN. */
  lemma TwoAtOnceBothSayIn(s: Scan, zone: Zone)
    requires 0 <= s.now && Record([], s, zone).1.answer == Recorded(Allowed(IN))
    ensures AllowedOn(Run(TwoAtOnce(s), zone).history, zone, zone(s.now).date) == [IN, IN]
  {
    var row := ScanRow(s.now, Allowed(IN));
    var reading := Reading(None, Allowed(IN), s.now);
    TwoAtOnceRun(s, zone);
    hide Record, Run, AllowedOn;
    assert Step(Desk([], map[], s.now), Read(0, s), zone) == Desk([], map[0 := reading], s.now);
    assert Step(Desk([], map[0 := reading], s.now), Read(1, s), zone) == Desk([], map[0 := reading, 1 := reading], s.now);
    assert Run(TwoAtOnce(s), zone).history == [row, row];
    hide Step;
    TwoInsOnADay(row, zone);
  }

  lemma TwoInsOnADay(row: ScanRow, zone: Zone)
    requires row.verdict == Allowed(IN)
    ensures AllowedOn([row, row], zone, zone(row.at).date) == [IN, IN]
  {
    assert [row, row][..1] == [row] && [row][..0] == [];
    assert AllowedOn([row], zone, zone(row.at).date) == [IN];
  }
}
