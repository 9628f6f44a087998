/** Whether a resident may lengthen a pass, and to when. */
module ExtensionRules {
  import opened Domain

  const LONG_EXPIRED_MINUTES := 120
  const MINUTES_A_DAY := 1440

  datatype Rules = Rules(
    enabled: bool,
    maxExtendMinutes: int,
    maxTotalMinutes: int,
    quietFrom: Option<int>,
    quietTo: Option<int>)

  datatype DenyCode =
    | Disabled | RevokedPass | AlreadyUsed | ExpiredTooLong
    | InvalidAmount | TooLongRequest | TooLongTotal | QuietHours

  datatype Decision = Granted(newValidUntil: Time, minutes: int) | Denied(code: DenyCode)

  predicate InQuietHours(minute: int, from: Option<int>, to: Option<int>) {
    if from.None? || to.None? || from == to then false
    else if from.value < to.value then from.value <= minute < to.value
    else minute >= from.value || minute < to.value
  }

  /** zone gives the minute after local midnight in the estate's time zone. */
  function EvaluateExtension(target: Invitation, rules: Rules, minutes: int, now: Time, zone: Time -> int): Decision {
    if !rules.enabled then Denied(Disabled)
    else if Withdrawn(target.status) then Denied(RevokedPass)
    else if target.policy == ONE_TIME && target.status == USED then Denied(AlreadyUsed)
    else if now - target.validUntil > LONG_EXPIRED_MINUTES * MINUTE_MS then Denied(ExpiredTooLong)
    else if minutes < 1 then Denied(InvalidAmount)
    else if minutes > rules.maxExtendMinutes then Denied(TooLongRequest)
    else
      var newValidUntil := Max(target.validUntil, now) + minutes * MINUTE_MS;
      if newValidUntil - target.validFrom > rules.maxTotalMinutes * MINUTE_MS then Denied(TooLongTotal)
      else if InQuietHours(zone(now), rules.quietFrom, rules.quietTo)
              || InQuietHours(zone(newValidUntil), rules.quietFrom, rules.quietTo) then Denied(QuietHours)
      else Granted(newValidUntil, minutes)
  }

  /** The order in which the rules are applied. */
  function Rank(code: DenyCode): nat {
    match code
    case Disabled => 1
    case RevokedPass => 2
    case AlreadyUsed => 3
    case ExpiredTooLong => 4
    case InvalidAmount => 5
    case TooLongRequest => 6
    case TooLongTotal => 7
    case QuietHours => 8
  }

  /** Whether one rule, on its own, forbids the extension. */
  predicate Refuses(code: DenyCode, target: Invitation, rules: Rules, minutes: int, now: Time, zone: Time -> int) {
    var end := Max(target.validUntil, now) + minutes * MINUTE_MS;
    match code
    case Disabled => !rules.enabled
    case RevokedPass => Withdrawn(target.status)
    case AlreadyUsed => target.policy == ONE_TIME && target.status == USED
    case ExpiredTooLong => target.validUntil + LONG_EXPIRED_MINUTES * MINUTE_MS < now
    case InvalidAmount => minutes < 1
    case TooLongRequest => rules.maxExtendMinutes < minutes
    case TooLongTotal => target.validFrom + rules.maxTotalMinutes * MINUTE_MS < end
    case QuietHours =>
      InQuietHours(zone(now), rules.quietFrom, rules.quietTo) || InQuietHours(zone(end), rules.quietFrom, rules.quietTo)
  }

  /** An extension is granted exactly when no rule forbids it; otherwise the code given is the first that does. */
  lemma DecisionIsFirstRefusal(target: Invitation, rules: Rules, minutes: int, now: Time, zone: Time -> int)
    ensures var d := EvaluateExtension(target, rules, minutes, now, zone);
      && (d.Granted? <==> forall code :: !Refuses(code, target, rules, minutes, now, zone))
      && (d.Denied? ==>
            Refuses(d.code, target, rules, minutes, now, zone)
            && forall code :: Rank(code) < Rank(d.code) ==> !Refuses(code, target, rules, minutes, now, zone))
      && (d.Granted? ==> d.minutes == minutes && d.newValidUntil == Max(target.validUntil, now) + minutes * MINUTE_MS)
  {
    hide InQuietHours;
    var d := EvaluateExtension(target, rules, minutes, now, zone);
    forall code | d.Denied? ==> Rank(code) < Rank(d.code)
      ensures !Refuses(code, target, rules, minutes, now, zone)
    {
    }
    assert d.Denied? ==> Refuses(d.code, target, rules, minutes, now, zone);
  }

  /** A minute of the day, as the estate settings and the local clock give it. */
  predicate MinuteOfDay(m: int) {
    0 <= m < MINUTES_A_DAY
  }

  /** How far around the clock face b lies after a. */
  function ClockGap(a: int, b: int): int {
    (b - a) % MINUTES_A_DAY
  }

  /** The two-case test for a window that may wrap past midnight is one comparison around the clock face. */
  lemma QuietHoursAreAnArc(minute: int, from: int, to: int)
    requires MinuteOfDay(minute) && MinuteOfDay(from) && MinuteOfDay(to)
    ensures InQuietHours(minute, Some(from), Some(to)) <==> ClockGap(from, minute) < ClockGap(from, to)
  {
    if minute < from { assert ClockGap(from, minute) == minute - from + MINUTES_A_DAY; }
    if to < from { assert ClockGap(from, to) == to - from + MINUTES_A_DAY; }
  }

  /** A grant ends strictly later than before: by the minutes asked, and by at most 120 minutes more. */
  lemma GrantBounds(target: Invitation, rules: Rules, minutes: int, now: Time, zone: Time -> int)
    requires EvaluateExtension(target, rules, minutes, now, zone).Granted?
    ensures var d := EvaluateExtension(target, rules, minutes, now, zone);
      && 1 <= minutes <= rules.maxExtendMinutes
      && target.validUntil + minutes * MINUTE_MS <= d.newValidUntil
      && d.newValidUntil <= target.validUntil + (minutes + LONG_EXPIRED_MINUTES) * MINUTE_MS
      && now + minutes * MINUTE_MS <= d.newValidUntil
      && d.newValidUntil <= target.validFrom + rules.maxTotalMinutes * MINUTE_MS
  {
  }

  /** Neither the moment of asking nor the new end lies on the quiet arc. */
  lemma GrantsAvoidQuietHours(target: Invitation, rules: Rules, minutes: int, now: Time, zone: Time -> int)
    requires EvaluateExtension(target, rules, minutes, now, zone).Granted?
    requires rules.quietFrom.Some? && rules.quietTo.Some?
    requires MinuteOfDay(rules.quietFrom.value) && MinuteOfDay(rules.quietTo.value)
    requires forall t :: MinuteOfDay(zone(t))
    ensures var d := EvaluateExtension(target, rules, minutes, now, zone);
      var length := ClockGap(rules.quietFrom.value, rules.quietTo.value);
      && ClockGap(rules.quietFrom.value, zone(now)) >= length
      && ClockGap(rules.quietFrom.value, zone(d.newValidUntil)) >= length
  {
    var d := EvaluateExtension(target, rules, minutes, now, zone);
    QuietHoursAreAnArc(zone(now), rules.quietFrom.value, rules.quietTo.value);
    QuietHoursAreAnArc(zone(d.newValidUntil), rules.quietFrom.value, rules.quietTo.value);
  }
}
