/** Recurring passes as rows: created, renewed, paused, given exceptions, and scanned. */
module RecurringService {
  import opened Domain
  import opened Texts
  import opened Calendar
  import opened DateKeys
  import opened RecurringRules
  import opened RecurringScan
  import opened RecurringListing

  datatype Schedule = Schedule(
    days: seq<int>, startMinute: int, endMinute: int, graceMinutes: int, validFrom: Text, validUntil: Text)

  datatype Problem =
    | NoWeekday | BadStart | BadEnd | EndNotAfterStart | BadGrace | DatesMissing | UntilBeforeFrom | TooLong

  predicate WeekdaysFine(days: seq<int>) {
    days != [] && (forall i :: 0 <= i < |days| ==> 0 <= days[i] <= 6) && forall i, j :: 0 <= i < j < |days| ==> days[i] != days[j]
  }

  /** Days from validFrom to validUntil; None when a date has the right shape but does not exist. */
  function SpanDays(s: Schedule): Option<int> {
    if ParseKey(s.validFrom).None? || ParseKey(s.validUntil).None? then None
    else Some(ParseKey(s.validUntil).value - ParseKey(s.validFrom).value)
  }

  predicate BothExist(s: Schedule) {
    ParseKey(s.validFrom).Some? && ParseKey(s.validUntil).Some?
  }

  predicate HasProblem(s: Schedule, p: Problem) {
    match p
    case NoWeekday => s.days == [] || exists i :: 0 <= i < |s.days| && (s.days[i] < 0 || 6 < s.days[i] || s.days[i] in s.days[..i])
    case BadStart => s.startMinute < 0 || s.startMinute > 1439
    case BadEnd => s.endMinute < 1 || s.endMinute > 1439
    case EndNotAfterStart => s.endMinute <= s.startMinute
    case BadGrace => s.graceMinutes < 0 || s.graceMinutes > 120
    case DatesMissing => !KeyPattern(s.validFrom) || !KeyPattern(s.validUntil)
    case UntilBeforeFrom => BothExist(s) && ParseKey(s.validUntil).value < ParseKey(s.validFrom).value
    case TooLong => BothExist(s) && ParseKey(s.validUntil).value - ParseKey(s.validFrom).value + 1 > 90
  }

  lemma ParsedKeyMatches(key: Text)
    ensures ParseKey(key).Some? ==> KeyPattern(key)
  {
  }

  lemma WeekdaysFineExactly(s: Schedule)
    ensures WeekdaysFine(s.days) <==> !HasProblem(s, NoWeekday)
  {
    if exists i :: 0 <= i < |s.days| && s.days[i] in s.days[..i] {
      var i :| 0 <= i < |s.days| && s.days[i] in s.days[..i];
      var j :| 0 <= j < i && s.days[j] == s.days[i];
    }
    if i, j :| 0 <= i < j < |s.days| && s.days[i] == s.days[j] {
      assert s.days[..j][i] == s.days[j];
    }
  }

  method ValidatePassSchedule(s: Schedule) returns (errors: seq<Problem>)
    ensures forall p :: p in errors <==> HasProblem(s, p)
  {
    ParsedKeyMatches(s.validFrom);
    ParsedKeyMatches(s.validUntil);
    WeekdaysFineExactly(s);
    hide ParseKey, KeyPattern, WeekdaysFine;
    errors := [];
    if !WeekdaysFine(s.days) { errors := errors + [NoWeekday]; }
    if s.startMinute < 0 || s.startMinute > 1439 { errors := errors + [BadStart]; }
    if s.endMinute < 1 || s.endMinute > 1439 { errors := errors + [BadEnd]; }
    if s.endMinute <= s.startMinute { errors := errors + [EndNotAfterStart]; }
    if s.graceMinutes < 0 || s.graceMinutes > 120 { errors := errors + [BadGrace]; }
    if !KeyPattern(s.validFrom) || !KeyPattern(s.validUntil) {
      errors := errors + [DatesMissing];
    } else if SpanDays(s).Some? {
      if SpanDays(s).value < 0 {
        errors := errors + [UntilBeforeFrom];
      } else if SpanDays(s).value + 1 > MAX_PASS_DAYS {
        errors := errors + [TooLong];
      }
    }
  }

  /** The window is stored as days. */
  datatype PassRow = PassRow(
    estate: EstateId, resident: ResidentId, status: PassStatus, fromDay: int, untilDay: int,
    days: seq<int>, startMinute: int, endMinute: int, graceMinutes: int)

  function RulesOf(row: PassRow): PassRules {
    PassRules(row.status, KeyOf(DateOf(row.fromDay)), KeyOf(DateOf(row.untilDay)), row.days, row.startMinute, row.endMinute, row.graceMinutes)
  }

  predicate WindowFine(row: PassRow) {
    0 <= row.fromDay <= row.untilDay <= LAST_DAY && row.untilDay - row.fromDay + 1 <= MAX_PASS_DAYS
  }

  /** The checks see the stored pass: its status, days and hours, and its window as keys, from not after until. */
  lemma WindowInKeys(row: PassRow)
    requires WindowFine(row)
    ensures var p := RulesOf(row);
      && (p.status, p.days, p.startMinute, p.endMinute, p.graceMinutes) == (row.status, row.days, row.startMinute, row.endMinute, row.graceMinutes)
      && ParseKey(p.validFrom) == Some(row.fromDay) && ParseKey(p.validUntil) == Some(row.untilDay)
    ensures !TextBefore(RulesOf(row).validUntil, RulesOf(row).validFrom)
    ensures ParseKey(RulesOf(row).validUntil).Some? && ParseKey(RulesOf(row).validFrom).Some?
    ensures ParseKey(RulesOf(row).validUntil).value - ParseKey(RulesOf(row).validFrom).value + 1 <= MAX_PASS_DAYS
  {
    DateOfIsRight(row.fromDay);
    DateOfIsRight(row.untilDay);
    KeyRoundTrip(DateOf(row.fromDay));
    KeyRoundTrip(DateOf(row.untilDay));
    KeyOrderIsDayOrder(DateOf(row.untilDay), DateOf(row.fromDay));
  }

  lemma ParsedDaysInRange(key: Text)
    requires ParseKey(key).Some?
    ensures 0 <= ParseKey(key).value <= LAST_DAY
  {
    var d := PartsOf(key);
    hide PartsOf, YearStart, TextBefore;
    DayNumberInRange(Date(d.year, d.month, 1));
    if d.month < 12 {
      DayNumberInRange(Date(d.year, d.month + 1, 3));
    } else {
      DayNumberInRange(Date(d.year, 12, 31));
    }
  }

  lemma RenewalEnds(today: Text, days: nat, n: int)
    requires ParseKey(today).Some? && n == ParseKey(today).value + days
    ensures 0 <= ParseKey(today).value
    ensures AddDays(today, days).Some? <==> n <= LAST_DAY
    ensures AddDays(today, days).Some? ==> ParseKey(AddDays(today, days).value) == Some(n)
  {
    ParsedDaysInRange(today);
    AddDaysReaches(today, ParseKey(today).value, days, n);
    if n <= LAST_DAY { KeyOfDayParses(n); }
  }

  lemma StatusKeepsWindow(row: PassRow, status: PassStatus)
    requires WindowFine(row)
    ensures WindowFine(row.(status := status))
  {
  }

  lemma RenewedWindow(row: PassRow, today: int, days: nat)
    requires 0 <= today == row.fromDay && row.untilDay == today + days - 1 <= LAST_DAY && 1 <= days <= MAX_PASS_DAYS
    ensures WindowFine(row)
  {
  }

  lemma EmptyIsKept(zone: Zone, now: Time)
    ensures WellKept([], zone, now)
  {
  }

  lemma KeptLater(history: seq<ScanRow>, zone: Zone, before: Time, now: Time)
    requires WellKept(history, zone, before) && before <= now
    ensures WellKept(history, zone, now)
  {
  }

  /** A row before and after a renewal, and the row as answered; meanwhile is the status at the time of the write. */
  predicate RenewedTo(before: PassRow, after: PassRow, answer: PassRow, today: int, days: nat, meanwhile: PassStatus) {
    var row := before.(fromDay := today, untilDay := today + days - 1);
    && after == row.(status := if before.status == PassExpired then PassActive else meanwhile)
    && answer == row.(status := if before.status == PassExpired then PassActive else before.status)
    && (answer == after <==> before.status == PassExpired || meanwhile == before.status)
  }

  class RecurringPassesService {
    var passes: map<PassId, PassRow>
    var exceptions: map<PassId, map<Text, PassException>>
    var scans: map<PassId, seq<ScanRow>>
    var clock: Time
    const zone: Zone

    /** Every pass has a proper window, and every pass's scan history is well kept. */
    ghost predicate Valid()
      reads this
    {
      && Forward(zone)
      && (forall p :: p in passes ==> WindowFine(passes[p]))
      && scans.Keys == passes.Keys && exceptions.Keys == passes.Keys
      && (forall p :: p in scans ==> WellKept(scans[p], zone, clock))
      && (forall p, d :: p in exceptions && d in exceptions[p] ==> exceptions[p][d].date == d)
    }

    constructor (zone: Zone)
      requires Forward(zone)
      ensures Valid() && passes == map[] && this.zone == zone
    {
      this.zone := zone;
      passes, exceptions, scans, clock := map[], map[], map[], 0;
    }

    predicate Owns(resident: ResidentId, estate: EstateId, id: PassId)
      reads this
    {
      id in passes && passes[id].resident == resident && passes[id].estate == estate
    }

    function Today(): int
      requires ParseKey(zone(clock).date).Some?
      reads this
    {
      ParseKey(zone(clock).date).value
    }

    method Create(id: PassId, resident: ResidentId, estate: EstateId, s: Schedule) returns (r: Result<PassId>)
      requires Valid() && id !in passes
      modifies this`passes, this`exceptions, this`scans
      ensures Valid()
      ensures r.Ok? <==> (forall p :: !HasProblem(s, p)) && !TextBefore(s.validUntil, zone(clock).date) && BothExist(s)
      ensures r.Ok? ==> passes == old(passes)[id := PassRow(estate, resident, PassActive, ParseKey(s.validFrom).value, ParseKey(s.validUntil).value,
                                                           s.days, s.startMinute, s.endMinute, s.graceMinutes)]
      ensures r.Ok? ==> scans == old(scans)[id := []] && exceptions == old(exceptions)[id := map[]]
      ensures r.Err? ==> passes == old(passes) && scans == old(scans) && exceptions == old(exceptions)
    {
      hide ParseKey, KeyPattern, TextBefore, WellKept;
      var errors := ValidatePassSchedule(s);
      if errors != [] {
        assert errors[0] in errors;
        return Err(BadRequest);
      }
      if TextBefore(s.validUntil, zone(clock).date) { return Err(BadRequest); }
      // A date of the right shape that does not exist passes the checks above and is refused by the database.
      if SpanDays(s).None? { return Err(Internal); }
      assert !HasProblem(s, UntilBeforeFrom) && !HasProblem(s, TooLong);
      ParsedDaysInRange(s.validFrom);
      ParsedDaysInRange(s.validUntil);
      passes := passes[id := PassRow(estate, resident, PassActive, ParseKey(s.validFrom).value, ParseKey(s.validUntil).value,
                                     s.days, s.startMinute, s.endMinute, s.graceMinutes)];
      exceptions := exceptions[id := map[]];
      scans := scans[id := []];
      EmptyIsKept(zone, clock);
      return Ok(id);
    }

    /**
     * days is at least 1 on every request that reaches the service; today is a date of a four-digit year. The pass is
     * read, and written later unless it is revoked by then: meanwhile is the status other requests leave in between.
     */
    method Renew(resident: ResidentId, estate: EstateId, id: PassId, days: nat, meanwhile: PassStatus) returns (r: Result<PassRow>)
      requires Valid() && 1 <= days && ParseKey(zone(clock).date).Some?
      modifies this`passes
      ensures Valid()
      ensures r.Ok? <==> id in old(passes) && old(passes)[id].resident == resident && old(passes)[id].estate == estate
                         && old(passes)[id].status != PassRevoked && days <= MAX_PASS_DAYS
                         && Today() + days - 1 <= LAST_DAY && meanwhile != PassRevoked
      ensures r.Ok? ==> id in passes && passes == old(passes)[id := passes[id]]
                        && RenewedTo(old(passes)[id], passes[id], r.value, Today(), days, meanwhile)
      ensures r.Err? ==>
        || passes == old(passes)
        || (id in old(passes) && r.error == Conflict && passes == old(passes)[id := old(passes)[id].(status := PassRevoked)])
    {
      hide WellKept, AddDays, ParseKey, Forward, WindowFine;
      if !Owns(resident, estate, id) { return Err(NotFound); }
      var pass := passes[id];
      if pass.status == PassRevoked { return Err(Conflict); }
      if days > MAX_PASS_DAYS { return Err(BadRequest); }
      var today := zone(clock).date;
      var validUntil := AddDays(today, days - 1);
      RenewalEnds(today, days - 1, ParseKey(today).value + days - 1);
      if validUntil.None? { return Err(Internal); }
      StatusKeepsWindow(pass, meanwhile);
      passes := passes[id := pass.(status := meanwhile)];
      if passes[id].status == PassRevoked { return Err(Conflict); }
      var row := passes[id].(fromDay := ParseKey(today).value, untilDay := ParseKey(validUntil.value).value);
      if pass.status == PassExpired {
        row := row.(status := PassActive);
      }
      RenewedWindow(row, Today(), days);
      passes := passes[id := row];
      return Ok(row.(status := if pass.status == PassExpired then PassActive else pass.status));
    }

    /** Pausing, resuming and revoking: a compare-and-swap on the status. */
    method SetStatus(resident: ResidentId, estate: EstateId, id: PassId, from: set<PassStatus>, to: PassStatus) returns (r: Result<PassStatus>)
      requires Valid()
      modifies this`passes
      ensures Valid()
      ensures r.Ok? <==> id in old(passes) && old(passes)[id].resident == resident && old(passes)[id].estate == estate
                         && old(passes)[id].status in from
      ensures passes == if r.Ok? then old(passes)[id := old(passes)[id].(status := to)] else old(passes)
    {
      if !Owns(resident, estate, id) { return Err(NotFound); }
      if passes[id].status !in from { return Err(Conflict); }
      passes := passes[id := passes[id].(status := to)];
      return Ok(to);
    }

    method Pause(resident: ResidentId, estate: EstateId, id: PassId) returns (r: Result<PassStatus>)
      requires Valid()
      modifies this`passes
      ensures Valid()
      ensures r.Ok? <==> id in old(passes) && old(passes)[id].resident == resident && old(passes)[id].estate == estate
                         && old(passes)[id].status == PassActive
      ensures passes == if r.Ok? then old(passes)[id := old(passes)[id].(status := PassPaused)] else old(passes)
    {
      r := SetStatus(resident, estate, id, {PassActive}, PassPaused);
    }

    method Resume(resident: ResidentId, estate: EstateId, id: PassId) returns (r: Result<PassStatus>)
      requires Valid()
      modifies this`passes
      ensures Valid()
      ensures r.Ok? <==> id in old(passes) && old(passes)[id].resident == resident && old(passes)[id].estate == estate
                         && old(passes)[id].status == PassPaused
      ensures passes == if r.Ok? then old(passes)[id := old(passes)[id].(status := PassActive)] else old(passes)
    {
      r := SetStatus(resident, estate, id, {PassPaused}, PassActive);
    }

    method RevokePass(resident: ResidentId, estate: EstateId, id: PassId) returns (r: Result<PassStatus>)
      requires Valid()
      modifies this`passes
      ensures Valid()
      ensures r.Ok? <==> id in old(passes) && old(passes)[id].resident == resident && old(passes)[id].estate == estate
                         && old(passes)[id].status != PassRevoked
      ensures passes == if r.Ok? then old(passes)[id := old(passes)[id].(status := PassRevoked)] else old(passes)
    {
      r := SetStatus(resident, estate, id, {PassActive, PassPaused, PassExpired}, PassRevoked);
    }

    /** Neither skipping nor adding a day reaches outside the pass's dates or into the past. */
    predicate DayInRange(id: PassId, date: Text)
      requires id in passes
      reads this
    {
      !TextBefore(date, zone(clock).date) && !TextBefore(date, RulesOf(passes[id]).validFrom) && !TextBefore(RulesOf(passes[id]).validUntil, date)
    }

    /** Extra hours come as a pair, in order, or not at all. */
    static predicate HoursFine(e: PassException) {
      e.Extra? ==> (e.startMinute.Some? <==> e.endMinute.Some?) && (e.startMinute.Some? ==> e.startMinute.value < e.endMinute.value)
    }

    /** One exception a day: a later one for the same day replaces it. */
    method PutException(resident: ResidentId, estate: EstateId, id: PassId, e: PassException) returns (r: Result<()>)
      requires Valid()
      modifies this`exceptions
      ensures Valid()
      ensures r.Ok? <==>
        && id in passes && passes[id].resident == resident && passes[id].estate == estate
        && !TextBefore(e.date, zone(clock).date) && !TextBefore(e.date, RulesOf(passes[id]).validFrom)
        && !TextBefore(RulesOf(passes[id]).validUntil, e.date) && HoursFine(e)
      ensures exceptions == if r.Ok? then old(exceptions)[id := old(exceptions)[id][e.date := e]] else old(exceptions)
    {
      hide RulesOf, TextBefore, WellKept;
      if !Owns(resident, estate, id) { return Err(NotFound); }
      if !DayInRange(id, e.date) { return Err(BadRequest); }
      if e.Extra? {
        if e.startMinute.Some? != e.endMinute.Some? { return Err(BadRequest); }
        if e.startMinute.Some? && e.endMinute.value <= e.startMinute.value { return Err(BadRequest); }
      }
      exceptions := exceptions[id := exceptions[id][e.date := e]];
      return Ok(());
    }

    method RemoveException(resident: ResidentId, estate: EstateId, id: PassId, date: Text) returns (r: Result<()>)
      requires Valid()
      modifies this`exceptions
      ensures Valid()
      ensures r.Ok? <==> id in passes && passes[id].resident == resident && passes[id].estate == estate
      ensures exceptions == if r.Ok? then old(exceptions)[id := old(exceptions)[id] - {date}] else old(exceptions)
    {
      if !Owns(resident, estate, id) { return Err(NotFound); }
      exceptions := exceptions[id := exceptions[id] - {date}];
      return Ok(());
    }

    /**
     * A scan at the gate, after some time has passed. listed is the pass's exceptions in the order the query gives
     * them.
     */
    method Scan(waited: nat, estate: EstateId, found: Option<PassId>, listed: seq<PassException>, blacklisted: bool,
                codes: Codes, presented: Option<string>)
      returns (r: Option<Response>)
      requires Valid()
      requires found.Some? && found.value in exceptions ==> forall e :: e in listed <==> e in exceptions[found.value].Values
      modifies this`scans, this`clock
      ensures Valid() && clock == old(clock) + waited
      ensures r.None? <==> found.None? || found.value !in passes || passes[found.value].estate != estate
      ensures r.None? ==> scans == old(scans)
      ensures r.Some? ==>
        var s := RecurringScan.Scan(clock, RulesOf(passes[found.value]), listed, blacklisted, codes, presented);
        (scans, r.value) == (old(scans)[found.value := Record(old(scans)[found.value], s, zone).0], Record(old(scans)[found.value], s, zone).1)
    {
      hide RulesOf, TextBefore, EvaluateRecurringScan, WellKept;
      var before := clock;
      clock := clock + waited;
      forall p | p in scans
        ensures WellKept(scans[p], zone, clock)
      {
        KeptLater(scans[p], zone, before, clock);
      }
      if found.None? || found.value !in passes || passes[found.value].estate != estate { return None; }
      var id := found.value;
      var rules := RulesOf(passes[id]);
      var local := zone(clock);
      var last := LastAllowed(scans[id]);
      var previousVisitOpen := PreviousVisitOpen(last, local, zone);
      var overdue := OverdueInside(last, rules, local, zone);
      RecordKeeps(scans[id], RecurringScan.Scan(clock, rules, listed, blacklisted, codes, presented), zone, before);
      if last.Some? && last.value.verdict.Allowed? && clock - last.value.at < DUPLICATE_SCAN_MS {
        assert scans == scans[id := scans[id]];
        return Some(Response(Duplicate(last.value.verdict.direction), overdue, previousVisitOpen));
      }
      var lastDirection := if previousVisitOpen then None else DirectionOf(last);
      var verdict := EvaluateRecurringScan(Some(rules), listed, blacklisted, local, codes, presented, lastDirection);
      scans := scans[id := scans[id] + [ScanRow(clock, verdict)]];
      return Some(Response(Recorded(verdict), overdue, previousVisitOpen));
    }
  }
}
