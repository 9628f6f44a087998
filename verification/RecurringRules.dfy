/** The nine checks on a recurring pass, and the code that changes every day. */
module RecurringRules {
  import opened Domain
  import opened Texts
  import opened Calendar
  import opened DateKeys

  const YESTERDAY_CODE_GRACE_MINUTES := 60
  const MAX_PASS_DAYS := 90

  datatype PassStatus = PassActive | PassPaused | PassRevoked | PassExpired
  datatype Direction = IN | OUT
  datatype DenyReason =
    | InvalidPass | Paused | RevokedByResident | ExpiredPass | Skipped
    | NotScheduled | OutsideHours | Blacklisted | CodeOutdated

  datatype PassRules = PassRules(
    status: PassStatus,
    validFrom: Text,
    validUntil: Text,
    days: seq<int>,
    startMinute: int,
    endMinute: int,
    graceMinutes: int)

  datatype PassException =
    | Skip(date: Text)
    | Extra(date: Text, startMinute: Option<int>, endMinute: Option<int>)

  datatype LocalMoment = LocalMoment(date: Text, weekday: int, minute: int)

  datatype Verdict = Allowed(direction: Direction) | Denied(reason: DenyReason)

  /** dailyCode is the pass's HMAC of a date key; normalise trims and upper-cases what was presented. */
  datatype Codes = Codes(dailyCode: Text -> string, normalise: string -> string)

  predicate CodeIsCurrent(codes: Codes, presented: Option<string>, local: LocalMoment) {
    presented.Some? && presented.value != "" &&
    var code := codes.normalise(presented.value);
    code == codes.dailyCode(local.date)
    || (local.minute < YESTERDAY_CODE_GRACE_MINUTES
        && PreviousDateKey(local.date).Some? && code == codes.dailyCode(PreviousDateKey(local.date).value))
  }

  predicate ExtraOn(e: PassException, date: Text) {
    e.Extra? && e.date == date
  }

  /** The first extra day listed for the date. */
  function FindExtra(exceptions: seq<PassException>, date: Text): (extra: Option<PassException>)
    ensures extra.None? <==> forall i :: 0 <= i < |exceptions| ==> !ExtraOn(exceptions[i], date)
    ensures extra.Some? ==> exists i :: 0 <= i < |exceptions| && extra.value == exceptions[i] && ExtraOn(exceptions[i], date)
                                        && forall j :: 0 <= j < i ==> !ExtraOn(exceptions[j], date)
  {
    if exceptions == [] then None
    else if ExtraOn(exceptions[0], date) then Some(exceptions[0])
    else FindExtra(exceptions[1..], date)
  }

  function EvaluateRecurringScan(pass: Option<PassRules>, exceptions: seq<PassException>, blacklisted: bool,
                                 local: LocalMoment, codes: Codes, presented: Option<string>, lastDirection: Option<Direction>): Verdict {
    if pass.None? then Denied(InvalidPass)
    else
      var p := pass.value;
      if p.status == PassPaused then Denied(Paused)
      else if p.status == PassRevoked then Denied(RevokedByResident)
      else if p.status != PassActive then Denied(ExpiredPass)
      else if TextBefore(local.date, p.validFrom) || TextBefore(p.validUntil, local.date) then Denied(ExpiredPass)
      else if exists i :: 0 <= i < |exceptions| && exceptions[i] == Skip(local.date) then Denied(Skipped)
      else
        var extra := FindExtra(exceptions, local.date);
        if extra.None? && local.weekday !in p.days then Denied(NotScheduled)
        else
          var start := if extra.Some? && extra.value.startMinute.Some? then extra.value.startMinute.value else p.startMinute;
          var end := if extra.Some? && extra.value.endMinute.Some? then extra.value.endMinute.value else p.endMinute;
          if local.minute < start - p.graceMinutes || local.minute > end + p.graceMinutes then Denied(OutsideHours)
          else if blacklisted then Denied(Blacklisted)
          else if !CodeIsCurrent(codes, presented, local) then Denied(CodeOutdated)
          else Allowed(if lastDirection == Some(IN) then OUT else IN)
  }

  // ---- What the decision means ----

  function StartOf(p: PassRules, extra: Option<PassException>): int {
    if extra.Some? && extra.value.Extra? && extra.value.startMinute.Some? then extra.value.startMinute.value else p.startMinute
  }

  function EndOf(p: PassRules, extra: Option<PassException>): int {
    if extra.Some? && extra.value.Extra? && extra.value.endMinute.Some? then extra.value.endMinute.value else p.endMinute
  }

  /** The order in which the checks are made. */
  function Rank(check: DenyReason): nat {
    match check
    case InvalidPass => 1
    case Paused => 2
    case RevokedByResident => 3
    case ExpiredPass => 4
    case Skipped => 5
    case NotScheduled => 6
    case OutsideHours => 7
    case Blacklisted => 8
    case CodeOutdated => 9
  }

  /** Whether one check, on its own, stands in the way. */
  predicate Blocks(check: DenyReason, pass: Option<PassRules>, exceptions: seq<PassException>, blacklisted: bool,
                   local: LocalMoment, codes: Codes, presented: Option<string>)
  {
    if check == InvalidPass then pass.None?
    else if pass.None? then false
    else
      var p, extra := pass.value, FindExtra(exceptions, local.date);
      match check
      case InvalidPass => false
      case Paused => p.status == PassPaused
      case RevokedByResident => p.status == PassRevoked
      case ExpiredPass => p.status == PassExpired || TextBefore(local.date, p.validFrom) || TextBefore(p.validUntil, local.date)
      case Skipped => Skip(local.date) in exceptions
      case NotScheduled => extra.None? && local.weekday !in p.days
      case OutsideHours => local.minute < StartOf(p, extra) - p.graceMinutes || EndOf(p, extra) + p.graceMinutes < local.minute
      case Blacklisted => blacklisted
      case CodeOutdated => !CodeIsCurrent(codes, presented, local)
  }

  /** A scan is allowed exactly when no check blocks it; otherwise the reason given is the first that does. */
  lemma DecisionIsFirstBlock(pass: Option<PassRules>, exceptions: seq<PassException>, blacklisted: bool,
                             local: LocalMoment, codes: Codes, presented: Option<string>, lastDirection: Option<Direction>)
    ensures var verdict := EvaluateRecurringScan(pass, exceptions, blacklisted, local, codes, presented, lastDirection);
      && (verdict.Allowed? <==> forall check :: !Blocks(check, pass, exceptions, blacklisted, local, codes, presented))
      && (verdict.Denied? ==>
            Blocks(verdict.reason, pass, exceptions, blacklisted, local, codes, presented)
            && forall check :: Rank(check) < Rank(verdict.reason) ==>
                 !Blocks(check, pass, exceptions, blacklisted, local, codes, presented))
      && (verdict.Allowed? ==> verdict.direction == if lastDirection == Some(IN) then OUT else IN)
  {
    hide CodeIsCurrent, TextBefore, FindExtra;
    var verdict := EvaluateRecurringScan(pass, exceptions, blacklisted, local, codes, presented, lastDirection);
    forall check | verdict.Denied? ==> Rank(check) < Rank(verdict.reason)
      ensures !Blocks(check, pass, exceptions, blacklisted, local, codes, presented)
    {
    }
    assert verdict.Denied? ==> Blocks(verdict.reason, pass, exceptions, blacklisted, local, codes, presented);
    hide EvaluateRecurringScan, Blocks;
  }

  /** A pass has one exception a day. */
  ghost predicate OneADay(exceptions: seq<PassException>) {
    forall e, f :: e in exceptions && f in exceptions && e.date == f.date ==> e == f
  }

  /** With one exception a day, the extra day found does not depend on the listing order. */
  lemma SameExtra(a: seq<PassException>, b: seq<PassException>, date: Text)
    requires OneADay(a) && forall e :: e in a <==> e in b
    ensures FindExtra(a, date) == FindExtra(b, date)
  {
    var x, y := FindExtra(a, date), FindExtra(b, date);
    if x.Some? {
      assert x.value in a;
      assert x.value in b;
      assert y.Some?;
    }
    if y.Some? {
      assert y.value in b;
      assert y.value in a;
      assert x.Some?;
    }
  }

  /** The order in which the query lists a pass's exceptions does not matter. */
  lemma ExceptionOrderIsFree(a: seq<PassException>, b: seq<PassException>, pass: Option<PassRules>, blacklisted: bool,
                             local: LocalMoment, codes: Codes, presented: Option<string>, lastDirection: Option<Direction>)
    requires OneADay(a) && forall e :: e in a <==> e in b
    ensures EvaluateRecurringScan(pass, a, blacklisted, local, codes, presented, lastDirection)
            == EvaluateRecurringScan(pass, b, blacklisted, local, codes, presented, lastDirection)
  {
    SameExtra(a, b, local.date);
    hide FindExtra, CodeIsCurrent, TextBefore, OneADay;
    assert Skip(local.date) in a <==> Skip(local.date) in b;
  }

  /** The code the person's own page shows; handed out only while the pass can work. */
  function PublicCode(pass: PassRules, codes: Codes, local: LocalMoment): Option<string> {
    if pass.status == PassActive && !TextBefore(local.date, pass.validFrom) && !TextBefore(pass.validUntil, local.date)
    then Some(codes.dailyCode(local.date)) else None
  }

  /** The HMAC gives each date its own code, already in the form a presented code is brought to. */
  ghost predicate GoodCodes(codes: Codes) {
    && (forall a: Text, b: Text :: codes.dailyCode(a) == codes.dailyCode(b) ==> a == b)
    && (forall a: Text :: codes.dailyCode(a) != "" && codes.normalise(codes.dailyCode(a)) == codes.dailyCode(a))
  }

  lemma PreviousIsTheDayBefore(d: Date, e: Date)
    requires ValidDate(d) && ValidDate(e)
    ensures PreviousDateKey(KeyOf(e)) == Some(KeyOf(d)) <==> DayNumber(e) == DayNumber(d) + 1
  {
    KeyRoundTrip(e);
    DayNumberInRange(d);
    var n := DayNumber(e) - 1;
    AddDaysReaches(KeyOf(e), DayNumber(e), -1, n);
    if 0 <= n {
      DayNumberInRange(e);
      DateOfIsRight(n);
      KeyOrderIsDayOrder(DateOf(n), d);
      EarlierIsSmaller(DateOf(n), d);
    }
  }

  /**
   * The code shown on day d passes the gate's check on day d, in the first hour of the day after, and at no other
   * moment.
   */
  lemma CodeWindow(codes: Codes, pass: PassRules, shown: LocalMoment, scanned: LocalMoment, d: Date, e: Date)
    requires GoodCodes(codes) && ValidDate(d) && ValidDate(e)
    requires shown.date == KeyOf(d) && scanned.date == KeyOf(e) && PublicCode(pass, codes, shown).Some?
    ensures CodeIsCurrent(codes, PublicCode(pass, codes, shown), scanned)
      <==> e == d || (scanned.minute < YESTERDAY_CODE_GRACE_MINUTES && DayNumber(e) == DayNumber(d) + 1)
  {
    KeyOrderIsDayOrder(d, e);
    PreviousIsTheDayBefore(d, e);
  }

  /** Whatever is presented at the gate, only the code shown that day, or the day before in the first hour, is taken. */
  lemma OnlyShownCodesPass(codes: Codes, presented: Option<string>, scanned: LocalMoment, e: Date)
    requires ValidDate(e) && scanned.date == KeyOf(e) && CodeIsCurrent(codes, presented, scanned)
    ensures presented.Some? && presented.value != ""
    ensures exists d :: ValidDate(d) && codes.normalise(presented.value) == codes.dailyCode(KeyOf(d))
                        && (d == e || (scanned.minute < 60 && DayNumber(e) == DayNumber(d) + 1))
  {
    var code := codes.normalise(presented.value);
    if code != codes.dailyCode(scanned.date) {
      var n := DayNumber(e) - 1;
      DayNumberInRange(e);
      KeyRoundTrip(e);
      AddDaysReaches(KeyOf(e), DayNumber(e), -1, n);
      DateOfIsRight(n);
      assert code == codes.dailyCode(KeyOf(DateOf(n)));
    }
  }

  /** What can still stand in the way of someone whose page shows a code. */
  predicate StillToMeet(check: DenyReason) {
    check == Skipped || check == NotScheduled || check == OutsideHours || check == Blacklisted
  }

  /**
   * Someone whose page showed a code today, and whose pass is as it was, is let through with it at any minute of the day
   * exactly when the day is not skipped, is a scheduled one, the hours fit and they are not on the blacklist; and is never
   * refused for another reason. A code is shown exactly while neither the pass's status nor its dates stand in the way.
   */
  lemma ShownCodeWillDo(pass: PassRules, exceptions: seq<PassException>, blacklisted: bool, shown: LocalMoment, scanned: LocalMoment,
                        codes: Codes, lastDirection: Option<Direction>)
    requires GoodCodes(codes) && shown.date == scanned.date
    ensures var code := PublicCode(pass, codes, shown);
      code.Some? <==> forall check :: check in {Paused, RevokedByResident, ExpiredPass} ==>
        !Blocks(check, Some(pass), exceptions, blacklisted, scanned, codes, code)
    ensures var code := PublicCode(pass, codes, shown);
      code.Some? ==>
      var verdict := EvaluateRecurringScan(Some(pass), exceptions, blacklisted, scanned, codes, code, lastDirection);
      && (verdict.Allowed? <==> forall check :: StillToMeet(check) ==>
            !Blocks(check, Some(pass), exceptions, blacklisted, scanned, codes, code))
      && (verdict.Denied? ==> StillToMeet(verdict.reason))
  {
    var code := PublicCode(pass, codes, shown);
    DecisionIsFirstBlock(Some(pass), exceptions, blacklisted, scanned, codes, code, lastDirection);
    if code.None? {
      assert exists check :: check in {Paused, RevokedByResident, ExpiredPass}
                             && Blocks(check, Some(pass), exceptions, blacklisted, scanned, codes, code);
      return;
    }
    assert CodeIsCurrent(codes, code, scanned);
    forall check | !StillToMeet(check)
      ensures !Blocks(check, Some(pass), exceptions, blacklisted, scanned, codes, code)
    {
    }
    hide EvaluateRecurringScan, Blocks, PublicCode, GoodCodes, CodeIsCurrent;
  }
}
