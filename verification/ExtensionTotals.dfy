/** What a pass's extensions add up to over a whole run, in every interleaving. */
module ExtensionTotals {
  import opened Domain
  import opened ExtensionRules
  import opened GateLedger
  import opened GateMachine
  import opened GateOneTime
  import opened GateExpiry

  predicate UsesRules(a: Action, rules: Rules) {
    (a.StartExtension? || a.ExtendNow?) ==> a.rules == rules
  }

  predicate Grew(before: Ledger, after: Ledger, id: InvitationId) {
    id in before.invitations && id in after.invitations
    && before.invitations[id].validUntil < after.invitations[id].validUntil
  }

  /** How many times the run moved a pass's end. */
  function Grants(actions: seq<Action>, zone: Time -> int, id: InvitationId): nat {
    if actions == [] then 0
    else
      var earlier := actions[..|actions| - 1];
      Grants(earlier, zone, id) + if Grew(Run(earlier, zone).db, Run(actions, zone).db, id) then 1 else 0
  }

  /** A granted extension still in flight obeys the rules relative to the end it read. */
  predicate WithinRules(r: Request, rules: Rules) {
    r.ExtensionRequest? ==>
      && 1 <= r.pending.minutes
      && r.pending.seen.validUntil + r.pending.minutes * MINUTE_MS <= r.pending.newValidUntil
      && r.pending.newValidUntil <= r.pending.seen.validUntil + (r.pending.minutes + LONG_EXPIRED_MINUTES) * MINUTE_MS
      && r.pending.newValidUntil <= r.pending.seen.validFrom + rules.maxTotalMinutes * MINUTE_MS
  }

  ghost predicate RequestsWithinRules(g: Gate, rules: Rules) {
    forall r :: r in g.requests ==> WithinRules(g.requests[r], rules)
  }

  lemma StepKeepsRules(g: Gate, a: Action, zone: Time -> int, rules: Rules)
    requires RequestsWithinRules(g, rules) && UsesRules(a, rules)
    ensures RequestsWithinRules(Step(g, a, zone), rules)
  {
  }

  /** The minutes an extending step was asked for. */
  function MinutesAsked(g: Gate, a: Action): int {
    if a.ExtendNow? then a.minutes
    else if a.FinishExtension? && a.request in g.requests && g.requests[a.request].ExtensionRequest?
    then g.requests[a.request].pending.minutes
    else 0
  }

  /** A pass's end moves by at least the minutes asked and at most 120 more, and never past its longest total. */
  lemma StepGrowth(g: Gate, a: Action, zone: Time -> int, rules: Rules, id: InvitationId)
    requires Inv(g) && RequestsWithinRules(g, rules) && UsesRules(a, rules)
    requires Grew(g.db, Step(g, a, zone).db, id)
    ensures var row, row' := g.db.invitations[id], Step(g, a, zone).db.invitations[id];
      && 1 <= MinutesAsked(g, a)
      && row.validUntil + MinutesAsked(g, a) * MINUTE_MS <= row'.validUntil
      && row'.validUntil <= row.validUntil + (MinutesAsked(g, a) + LONG_EXPIRED_MINUTES) * MINUTE_MS
      && row'.validUntil <= row'.validFrom + rules.maxTotalMinutes * MINUTE_MS
  {
    hide HasOpenVisit, TokenTaken, InQuietHours;
  }

  predicate Bounded(row: Invitation, grants: nat, rules: Rules) {
    && row.validFrom + grants * MINUTE_MS < row.validUntil
    && (grants > 0 ==> row.validUntil <= row.validFrom + rules.maxTotalMinutes * MINUTE_MS)
  }

  lemma {:induction false} RunBounds(actions: seq<Action>, zone: Time -> int, rules: Rules, id: InvitationId)
    requires forall i :: 0 <= i < |actions| ==> UsesRules(actions[i], rules)
    ensures RequestsWithinRules(Run(actions, zone), rules)
    ensures id !in Run(actions, zone).db.invitations ==> Grants(actions, zone, id) == 0
    ensures id in Run(actions, zone).db.invitations ==> Bounded(Run(actions, zone).db.invitations[id], Grants(actions, zone, id), rules)
  {
    if actions != [] {
      var earlier, a := actions[..|actions| - 1], actions[|actions| - 1];
      RunBounds(earlier, zone, rules, id);
      RunKeepsInv(earlier, zone);
      StepKeepsRules(Run(earlier, zone), a, zone, rules);
      StepEvolvesRows(Run(earlier, zone), a, zone);
      RunSettles(actions, zone);
      if Grew(Run(earlier, zone).db, Run(actions, zone).db, id) {
        StepGrowth(Run(earlier, zone), a, zone, rules, id);
      }
    }
  }

  /**
   * Under fixed rules a pass's end only moves later, at most maxTotalMinutes times, and never past its longest
   * total.
   */
  lemma ExtensionsAreLimited(actions: seq<Action>, zone: Time -> int, rules: Rules, id: InvitationId)
    requires forall i :: 0 <= i < |actions| ==> UsesRules(actions[i], rules)
    requires id in Run(actions, zone).db.invitations && Grants(actions, zone, id) > 0
    ensures Run(actions, zone).db.invitations[id].validUntil
            <= Run(actions, zone).db.invitations[id].validFrom + rules.maxTotalMinutes * MINUTE_MS
    ensures Grants(actions, zone, id) < rules.maxTotalMinutes
  {
    RunBounds(actions, zone, rules, id);
  }
}
