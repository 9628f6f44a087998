/** The scans of one recurring pass: who is inside follows from the history alone. */
module RecurringScan {
  import opened Domain
  import opened Texts
  import opened RecurringRules

  const DUPLICATE_SCAN_MS := 10_000

  datatype ScanRow = ScanRow(at: Time, verdict: Verdict)

  /** Everything about one scan except the history: the server's time and whatever the pass and the gate say then. */
  datatype Scan = Scan(now: Time, pass: PassRules, exceptions: seq<PassException>, blacklisted: bool, codes: Codes, presented: Option<string>)

  datatype Answer = Duplicate(direction: Direction) | Recorded(verdict: Verdict)
  datatype Response = Response(answer: Answer, overdue: bool, previousVisitOpen: bool)

  type Zone = Time -> LocalMoment

  /** The local date never goes back as time goes on. */
  ghost predicate Forward(zone: Zone) {
    forall s: Time, t: Time :: s <= t ==> !TextBefore(zone(t).date, zone(s).date)
  }

  /** The latest allowed scan. */
  function LastAllowed(history: seq<ScanRow>): Option<ScanRow> {
    if history == [] then None
    else if history[|history| - 1].verdict.Allowed? then Some(history[|history| - 1])
    else LastAllowed(history[..|history| - 1])
  }

  predicate PreviousVisitOpen(last: Option<ScanRow>, local: LocalMoment, zone: Zone) {
    last.Some? && last.value.verdict == Allowed(IN) && TextBefore(zone(last.value.at).date, local.date)
  }

  predicate OverdueInside(last: Option<ScanRow>, pass: PassRules, local: LocalMoment, zone: Zone) {
    last.Some? && last.value.verdict == Allowed(IN) &&
    (TextBefore(zone(last.value.at).date, local.date)
     || (local.date == zone(last.value.at).date && local.minute > pass.endMinute + pass.graceMinutes))
  }

  function DirectionOf(last: Option<ScanRow>): Option<Direction> {
    if last.Some? && last.value.verdict.Allowed? then Some(last.value.verdict.direction) else None
  }

  /** One scan: the history after it and the guard's answer. */
  function Record(history: seq<ScanRow>, s: Scan, zone: Zone): (seq<ScanRow>, Response) {
    var local := zone(s.now);
    var last := LastAllowed(history);
    var open := PreviousVisitOpen(last, local, zone);
    var overdue := OverdueInside(last, s.pass, local, zone);
    if last.Some? && last.value.verdict.Allowed? && s.now - last.value.at < DUPLICATE_SCAN_MS then
      (history, Response(Duplicate(last.value.verdict.direction), overdue, open))
    else
      var verdict := EvaluateRecurringScan(Some(s.pass), s.exceptions, s.blacklisted, local, s.codes, s.presented,
                                           if open then None else DirectionOf(last));
      (history + [ScanRow(s.now, verdict)], Response(Recorded(verdict), overdue, open))
  }

  function Run(scans: seq<Scan>, zone: Zone): seq<ScanRow> {
    if scans == [] then [] else Record(Run(scans[..|scans| - 1], zone), scans[|scans| - 1], zone).0
  }

  predicate InOrder(scans: seq<Scan>) {
    forall i :: 0 < i < |scans| ==> scans[i - 1].now <= scans[i].now
  }

  // ---- Reading a history ----

  /** The allowed directions on one local date, oldest first. */
  function AllowedOn(history: seq<ScanRow>, zone: Zone, date: Text): seq<Direction> {
    if history == [] then []
    else
      var row := history[|history| - 1];
      AllowedOn(history[..|history| - 1], zone, date)
        + if row.verdict.Allowed? && zone(row.at).date == date then [row.verdict.direction] else []
  }

  predicate InOutInOut(directions: seq<Direction>) {
    forall i :: 0 <= i < |directions| ==> directions[i] == if i % 2 == 0 then IN else OUT
  }

  function AllowedTimes(history: seq<ScanRow>): seq<Time> {
    if history == [] then []
    else AllowedTimes(history[..|history| - 1]) + if history[|history| - 1].verdict.Allowed? then [history[|history| - 1].at] else []
  }

  /** Consecutive allowed scans are at least ten seconds apart. */
  predicate SpacedOut(times: seq<Time>) {
    forall i :: 0 < i < |times| ==> times[i] - times[i - 1] >= DUPLICATE_SCAN_MS
  }

  /** What the next scan will be if it is allowed at this moment. */
  function NextDirection(history: seq<ScanRow>, now: Time, zone: Zone): Direction {
    NextAfter(LastAllowed(history), zone(now), zone)
  }

  function NextAfter(last: Option<ScanRow>, local: LocalMoment, zone: Zone): Direction {
    if !PreviousVisitOpen(last, local, zone) && DirectionOf(last) == Some(IN) then OUT else IN
  }

  // ---- The invariant ----

  ghost predicate WellKept(history: seq<ScanRow>, zone: Zone, now: Time) {
    && (forall date :: InOutInOut(AllowedOn(history, zone, date)))
    && SpacedOut(AllowedTimes(history))
    && (LastAllowed(history).None? ==> AllowedTimes(history) == [] && forall date :: AllowedOn(history, zone, date) == [])
    && (LastAllowed(history).Some? ==>
          var last := LastAllowed(history).value;
          var today := AllowedOn(history, zone, zone(last.at).date);
          && last.verdict.Allowed? && last.at <= now
          && AllowedTimes(history) != [] && AllowedTimes(history)[|AllowedTimes(history)| - 1] == last.at
          && today != [] && today[|today| - 1] == last.verdict.direction
          && forall date :: TextBefore(zone(last.at).date, date) ==> AllowedOn(history, zone, date) == [])
  }

  lemma Appended(history: seq<ScanRow>, row: ScanRow, zone: Zone, date: Text)
    ensures AllowedOn(history + [row], zone, date)
            == AllowedOn(history, zone, date) + if row.verdict.Allowed? && zone(row.at).date == date then [row.verdict.direction] else []
    ensures AllowedTimes(history + [row]) == AllowedTimes(history) + if row.verdict.Allowed? then [row.at] else []
    ensures LastAllowed(history + [row]) == if row.verdict.Allowed? then Some(row) else LastAllowed(history)
  {
    assert (history + [row])[..|history|] == history;
  }

  /** A row a scan may add: an allowed one comes ten seconds or more after the last and goes the next way. */
  predicate Follows(history: seq<ScanRow>, row: ScanRow, zone: Zone) {
    row.verdict.Allowed? ==>
      && row.verdict.direction == NextDirection(history, row.at, zone)
      && (LastAllowed(history).Some? && LastAllowed(history).value.verdict.Allowed? ==>
            row.at - LastAllowed(history).value.at >= DUPLICATE_SCAN_MS)
  }

  lemma RecordedRowFollows(history: seq<ScanRow>, s: Scan, zone: Zone)
    ensures var (history', response) := Record(history, s, zone);
      if response.answer.Duplicate? then history' == history
      else history' == history + [ScanRow(s.now, response.answer.verdict)] && Follows(history, ScanRow(s.now, response.answer.verdict), zone)
  {
  }

  /** The direction given to an allowed scan continues that date's IN, OUT, IN, OUT. */
  lemma NextContinues(history: seq<ScanRow>, zone: Zone, before: Time, now: Time)
    requires Forward(zone) && WellKept(history, zone, before) && before <= now
    ensures var today := AllowedOn(history, zone, zone(now).date);
      NextDirection(history, now, zone) == if |today| % 2 == 0 then IN else OUT
  {
    var last := LastAllowed(history);
    if last.Some? {
      TextOrderTotal(zone(last.value.at).date, zone(now).date);
    }
  }

  lemma DayKeeps(history: seq<ScanRow>, row: ScanRow, zone: Zone, before: Time, date: Text)
    requires Forward(zone) && WellKept(history, zone, before) && before <= row.at && Follows(history, row, zone)
    ensures InOutInOut(AllowedOn(history + [row], zone, date))
  {
    Appended(history, row, zone, date);
    if row.verdict.Allowed? && date == zone(row.at).date {
      NextContinues(history, zone, before, row.at);
    }
  }

  lemma AllowedKeeps(history: seq<ScanRow>, row: ScanRow, zone: Zone, before: Time)
    requires Forward(zone) && WellKept(history, zone, before) && before <= row.at && Follows(history, row, zone) && row.verdict.Allowed?
    ensures WellKept(history + [row], zone, row.at)
  {
    forall date
      ensures InOutInOut(AllowedOn(history + [row], zone, date))
    {
      DayKeeps(history, row, zone, before, date);
    }
    Appended(history, row, zone, zone(row.at).date);
    NothingLater(history, row, zone, before);
  }

  lemma RecordKeeps(history: seq<ScanRow>, s: Scan, zone: Zone, before: Time)
    requires Forward(zone) && WellKept(history, zone, before) && before <= s.now
    ensures WellKept(Record(history, s, zone).0, zone, s.now)
  {
    RecordedRowFollows(history, s, zone);
    var answer := Record(history, s, zone).1.answer;
    if answer.Recorded? {
      var row := ScanRow(s.now, answer.verdict);
      if row.verdict.Allowed? {
        AllowedKeeps(history, row, zone, before);
      } else {
        DeniedKeepsRest(history, row, zone);
      }
    }
  }

  lemma NothingLater(history: seq<ScanRow>, row: ScanRow, zone: Zone, before: Time)
    requires Forward(zone) && WellKept(history, zone, before) && before <= row.at
    ensures forall date :: TextBefore(zone(row.at).date, date) ==> AllowedOn(history + [row], zone, date) == []
  {
    forall date | TextBefore(zone(row.at).date, date)
      ensures AllowedOn(history + [row], zone, date) == []
    {
      Appended(history, row, zone, date);
      TextOrderTotal(zone(row.at).date, date);
      if LastAllowed(history).Some? {
        var last := LastAllowed(history).value;
        TextOrderTotal(zone(last.at).date, zone(row.at).date);
        if zone(last.at).date != zone(row.at).date {
          TextOrderTransitive(zone(last.at).date, zone(row.at).date, date);
        }
      }
    }
  }

  lemma DeniedKeepsRest(history: seq<ScanRow>, row: ScanRow, zone: Zone)
    requires row.verdict.Denied?
    ensures AllowedTimes(history + [row]) == AllowedTimes(history) && LastAllowed(history + [row]) == LastAllowed(history)
    ensures forall date :: AllowedOn(history + [row], zone, date) == AllowedOn(history, zone, date)
  {
    forall date
      ensures AllowedOn(history + [row], zone, date) == AllowedOn(history, zone, date)
    {
      Appended(history, row, zone, date);
    }
    Appended(history, row, zone, []);
  }

  lemma NothingKept(zone: Zone, now: Time)
    ensures WellKept([], zone, now)
  {
  }

  lemma {:induction false} RunKeeps(scans: seq<Scan>, zone: Zone)
    requires Forward(zone) && InOrder(scans)
    ensures WellKept(Run(scans, zone), zone, if scans == [] then 0 else scans[|scans| - 1].now)
  {
    hide WellKept, Record;
    if scans == [] {
      NothingKept(zone, 0);
    } else {
      var earlier, s := scans[..|scans| - 1], scans[|scans| - 1];
      RunKeeps(earlier, zone);
      NothingKept(zone, s.now);
      RecordKeeps(Run(earlier, zone), s, zone, if earlier == [] then s.now else earlier[|earlier| - 1].now);
    }
  }

  // ---- What holds over every run ----

  /**
   * On every local date the allowed scans read IN, OUT, IN, OUT, and consecutive ones are ten seconds or more
   * apart.
   */
  lemma ScansAlternateDaily(scans: seq<Scan>, zone: Zone, date: Text)
    requires Forward(zone) && InOrder(scans)
    ensures InOutInOut(AllowedOn(Run(scans, zone), zone, date)) && SpacedOut(AllowedTimes(Run(scans, zone)))
  {
    RunKeeps(scans, zone);
  }

  /** A denied scan changes nothing about the next direction. */
  lemma DeniedChangesNothing(history: seq<ScanRow>, s: Scan, zone: Zone, now: Time)
    requires Record(history, s, zone).1.answer.Recorded? && Record(history, s, zone).1.answer.verdict.Denied?
    ensures NextDirection(Record(history, s, zone).0, now, zone) == NextDirection(history, now, zone)
  {
    DeniedKeepsRest(history, ScanRow(s.now, Record(history, s, zone).1.answer.verdict), zone);
  }

  function Count(history: seq<ScanRow>, d: Direction): nat {
    if history == [] then 0
    else Count(history[..|history| - 1], d) + if history[|history| - 1].verdict == Allowed(d) then 1 else 0
  }

  /** The local dates whose last allowed scan is IN. */
  function OpenDates(history: seq<ScanRow>, zone: Zone): set<Text> {
    if history == [] then {}
    else
      var row, rest := history[|history| - 1], OpenDates(history[..|history| - 1], zone);
      if row.verdict == Allowed(IN) then rest + {zone(row.at).date}
      else if row.verdict == Allowed(OUT) then rest - {zone(row.at).date}
      else rest
  }

  lemma {:induction false} OpenDatesMeaning(history: seq<ScanRow>, zone: Zone, date: Text)
    ensures var on := AllowedOn(history, zone, date);
      date in OpenDates(history, zone) <==> on != [] && on[|on| - 1] == IN
  {
    if history != [] {
      OpenDatesMeaning(history[..|history| - 1], zone, date);
    }
  }

  lemma AppendedCounts(history: seq<ScanRow>, row: ScanRow, zone: Zone, before: Time)
    requires Forward(zone) && WellKept(history, zone, before) && before <= row.at && Follows(history, row, zone)
    requires Count(history, IN) - Count(history, OUT) == |OpenDates(history, zone)|
    ensures Count(history + [row], IN) - Count(history + [row], OUT) == |OpenDates(history + [row], zone)|
  {
    assert (history + [row])[..|history|] == history;
    OpenDatesMeaning(history, zone, zone(row.at).date);
    if row.verdict.Allowed? {
      NextContinues(history, zone, before, row.at);
    }
  }

  /** People counted in less people counted out is the number of dates left open; so it is never negative. */
  lemma {:induction false} InsMinusOuts(scans: seq<Scan>, zone: Zone)
    requires Forward(zone) && InOrder(scans)
    ensures Count(Run(scans, zone), IN) - Count(Run(scans, zone), OUT) == |OpenDates(Run(scans, zone), zone)|
  {
    if scans != [] {
      var earlier, s := scans[..|scans| - 1], scans[|scans| - 1];
      var history := Run(earlier, zone);
      InsMinusOuts(earlier, zone);
      RunKeeps(earlier, zone);
      RecordedRowFollows(history, s, zone);
      var answer := Record(history, s, zone).1.answer;
      if answer.Recorded? {
        AppendedCounts(history, ScanRow(s.now, answer.verdict), zone, if earlier == [] then s.now else earlier[|earlier| - 1].now);
      }
    }
  }
}
