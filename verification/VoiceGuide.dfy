/** The loop over position fixes: what is spoken on a route, and when. */
module VoiceGuide {
  import opened Domain
  import opened Lists
  import opened RouteGuidance

  const RETRY_MS := 5_000
  const REROUTE_MS := 15_000

  /** Something said about a route, counted from the first one fetched. */
  datatype Utterance = Utterance(route: nat, key: Key)

  datatype Guide = Guide(
    routes: nat,
    route: Option<Route>,
    step: int,
    offCount: nat,
    spoken: set<Key>,
    fetching: bool,
    lastFetch: Time,
    said: seq<Utterance>)

  const IDLE := Guide(0, None, 0, 0, {}, false, 0, [])

  datatype Outcome = Arrived | NoRoute | Rerouting | Spoke(index: nat) | Silent

  predicate MayFetch(g: Guide, now: Time, pause: int) {
    !g.fetching && now - g.lastFetch > pause
  }

  function Fetch(g: Guide, now: Time): Guide {
    g.(fetching := true, lastFetch := now)
  }

  /** One position fix. Reaching the destination and a missing route leave the references alone. */
  function AfterFix(g: Guide, pos: LngLat, dest: LngLat, now: Time, dist: Distance): (Guide, Outcome) {
    if dist(pos, dest) <= ARRIVED_WITHIN_M then (g, Arrived)
    else if g.route.None? then (if MayFetch(g, now, RETRY_MS) then Fetch(g, now) else g, NoRoute)
    else
      var route := g.route.value;
      var best := Locate(route, pos, g.step, dist);
      var off := best.off.None? || best.off.value > OFF_ROUTE_M;
      var located := g.(step := best.step, offCount := if off then g.offCount + 1 else 0);
      if located.offCount >= 2 && MayFetch(located, now, REROUTE_MS) then (Fetch(located, now), Rerouting)
      else
        var step := route[best.step];
        match PickAnnouncement(step, dist(pos, step.endsAt), located.spoken, best.step)
        case None => (located, Silent)
        case Some((index, keys)) =>
          (located.(spoken := located.spoken + keys, said := located.said + [Utterance(g.routes, Key(best.step, index))]), Spoke(index))
  }

  datatype Action =
    | Begin
    | Fix(pos: LngLat, dest: LngLat, now: Time)
    | Fetched(route: Option<Route>, from: LngLat, dest: LngLat, now: Time)

  function Restarted(g: Guide, route: Option<Route>): Guide {
    g.(routes := g.routes + 1, route := route, step := 0, spoken := {}, offCount := 0)
  }

  /** A fetch that comes back with a route starts it afresh and takes its starting point as a fix. */
  function Next(g: Guide, a: Action, dist: Distance): Guide {
    match a
    case Begin => Restarted(g, None)
    case Fix(pos, dest, now) => AfterFix(g, pos, dest, now, dist).0
    case Fetched(route, from, dest, now) =>
      if !g.fetching then g
      else if route.None? then g.(route := None, fetching := false)
      else
        AfterFix(Restarted(g, route), from, dest, now, dist).0.(fetching := false)
  }

  function Run(actions: seq<Action>, dist: Distance): Guide {
    if actions == [] then IDLE else Next(Run(actions[..|actions| - 1], dist), actions[|actions| - 1], dist)
  }

  // ---- What every fix keeps ----

  predicate OnRoute(g: Guide) {
    g.route.Some? ==> 0 <= g.step < |g.route.value|
  }

  /** Everything said is marked as spoken, and nothing was said twice. */
  predicate Inv(g: Guide) {
    && OnRoute(g)
    && (forall k :: 0 <= k < |g.said| ==> g.said[k].route <= g.routes && (g.said[k].route == g.routes ==> g.said[k].key in g.spoken))
    && Distinct(g.said)
  }

  lemma FixKeeps(g: Guide, pos: LngLat, dest: LngLat, now: Time, dist: Distance)
    requires Inv(g)
    ensures var after := AfterFix(g, pos, dest, now, dist).0;
      Inv(after) && after.routes == g.routes && after.route == g.route
      && g.step <= after.step && g.spoken <= after.spoken && g.said <= after.said
  {
    if g.route.Some? {
      LocateIsFirstNearest(g.route.value, pos, g.step, dist);
    }
    hide Locate, FirstNearest;
  }

  lemma StepKeeps(g: Guide, a: Action, dist: Distance)
    requires Inv(g)
    ensures var after := Next(g, a, dist);
      Inv(after) && g.routes <= after.routes
      && (after.routes == g.routes ==> g.step <= after.step && g.spoken <= after.spoken && g.said <= after.said)
  {
    hide AfterFix;
    match a
    case Fix(pos, dest, now) => FixKeeps(g, pos, dest, now, dist);
    case Fetched(route, from, dest, now) =>
      if route.Some? {
        FixKeeps(Restarted(g, route), from, dest, now, dist);
      }
    case Begin =>
  }

  lemma {:induction false} RunKeeps(actions: seq<Action>, dist: Distance)
    ensures Inv(Run(actions, dist))
  {
    if actions != [] {
      RunKeeps(actions[..|actions| - 1], dist);
      StepKeeps(Run(actions[..|actions| - 1], dist), actions[|actions| - 1], dist);
    }
  }

  // ---- Over any run of fixes ----

  /** On one route the step index never decreases, and what was marked as spoken stays so. */
  lemma {:induction false} NeverBackwards(actions: seq<Action>, k: nat, dist: Distance)
    requires k <= |actions|
    ensures var g, after := Run(actions[..k], dist), Run(actions, dist);
      g.routes <= after.routes && (after.routes == g.routes ==> g.step <= after.step && g.spoken <= after.spoken)
  {
    if k < |actions| {
      var front := actions[..|actions| - 1];
      assert front[..k] == actions[..k];
      NeverBackwards(front, k, dist);
      RunKeeps(front, dist);
      StepKeeps(Run(front, dist), actions[|actions| - 1], dist);
      hide Next;
    } else {
      assert actions[..k] == actions;
    }
  }

  /** Each instruction of a route is spoken at most once. */
  lemma SpokenOnce(actions: seq<Action>, dist: Distance, j: nat, k: nat)
    requires j < |Run(actions, dist).said| && k < |Run(actions, dist).said|
    requires Run(actions, dist).said[j] == Run(actions, dist).said[k]
    ensures j == k
  {
    RunKeeps(actions, dist);
  }

  /** An instruction of the step not yet spoken whose distance the visitor has come down to. */
  predicate ToSay(step: GuidanceStep, remaining: real, spoken: set<Key>, stepIndex: int, i: nat) {
    i < |step.voice| && remaining <= step.voice[i].distanceAlong && Key(stepIndex, i) !in spoken
  }

  lemma ToSayIsDue()
    ensures forall step, remaining, spoken, stepIndex, i :: ToSay(step, remaining, spoken, stepIndex, i) <==> IsDue(step, remaining, spoken, stepIndex, i)
  {
  }

  /**
   * A fix that neither arrives nor re-routes stands on the first nearest step. It speaks if something is due there, and
   * then the first of those with the least distance; it leaves nothing due unspoken.
   */
  lemma FixSpeaksWhatIsDue(actions: seq<Action>, pos: LngLat, dest: LngLat, now: Time, dist: Distance)
    ensures var g := Run(actions, dist);
      var (after, outcome) := AfterFix(g, pos, dest, now, dist);
      outcome.Silent? || outcome.Spoke? ==>
        && g.route.Some? && after.route == g.route && 0 <= g.step <= after.step < |g.route.value|
        && FirstNearest(Locate(g.route.value, pos, g.step, dist), g.route.value, pos, dist, g.step, |g.route.value|)
        && after.step == Locate(g.route.value, pos, g.step, dist).step
        && var step := g.route.value[after.step];
           var remaining := dist(pos, step.endsAt);
           && (forall i: nat :: !ToSay(step, remaining, after.spoken, after.step, i))
           && (outcome.Silent? <==> forall i: nat :: !ToSay(step, remaining, g.spoken, after.step, i))
           && (outcome.Silent? ==> after.said == g.said)
           && (outcome.Spoke? ==>
                 && after.said == g.said + [Utterance(g.routes, Key(after.step, outcome.index))]
                 && ToSay(step, remaining, g.spoken, after.step, outcome.index)
                 && forall i: nat :: ToSay(step, remaining, g.spoken, after.step, i) ==>
                      step.voice[outcome.index].distanceAlong <= step.voice[i].distanceAlong)
  {
    RunKeeps(actions, dist);
    var g := Run(actions, dist);
    if g.route.Some? {
      LocateIsFirstNearest(g.route.value, pos, g.step, dist);
    }
    hide Run, Locate, FirstNearest, ToSay;
    ToSayIsDue();
  }

  /** Every point of the route from this step on, and every segment's middle, is more than 60 metres away. */
  ghost predicate OffRoute(route: Route, pos: LngLat, step: int, dist: Distance) {
    forall i, d :: 0 <= i < |route| && step <= i && Reaches(route[i].line, pos, dist, d) ==> d > 60.0
  }

  /**
   * In every run: within 30 metres of the destination a fix arrives and changes nothing. Without a route it asks for one
   * unless a request is under way or less than five seconds old. Off the route for the second time running, it asks for a new
   * one unless a request is under way or less than fifteen seconds old, and says nothing then.
   */
  lemma FixDecides(actions: seq<Action>, pos: LngLat, dest: LngLat, now: Time, dist: Distance)
    ensures var g := Run(actions, dist);
      var (after, outcome) := AfterFix(g, pos, dest, now, dist);
      && (outcome.Arrived? <==> dist(pos, dest) <= 30.0)
      && (outcome.Arrived? ==> after == g)
      && (outcome.NoRoute? <==> dist(pos, dest) > 30.0 && g.route.None?)
      && (outcome.NoRoute? ==> after == if !g.fetching && now - g.lastFetch > 5000 then g.(fetching := true, lastFetch := now) else g)
      && (outcome.Rerouting? <==>
            && dist(pos, dest) > 30.0 && g.route.Some? && OffRoute(g.route.value, pos, g.step, dist) && 1 <= g.offCount
            && !g.fetching && now - g.lastFetch > 15000)
      && (outcome.Rerouting? ==> after.fetching && after.lastFetch == now && after.said == g.said && after.spoken == g.spoken)
      && (outcome.Rerouting? || outcome.Spoke? || outcome.Silent? ==>
            after.offCount == if OffRoute(g.route.value, pos, g.step, dist) then g.offCount + 1 else 0)
      && (outcome.Spoke? || outcome.Silent? ==> (after.fetching, after.lastFetch) == (g.fetching, g.lastFetch))
  {
    RunKeeps(actions, dist);
    var g := Run(actions, dist);
    hide Run;
    if g.route.Some? {
      OffExactly(g.route.value, pos, g.step, dist);
    }
    hide Locate, OffRoute, PickAnnouncement;
  }

  lemma OffExactly(route: Route, pos: LngLat, step: int, dist: Distance)
    requires 0 <= step < |route|
    ensures var b := Locate(route, pos, step, dist); b.off.Some? && (b.off.value > 60.0 <==> OffRoute(route, pos, step, dist))
  {
    LocateIsFirstNearest(route, pos, step, dist);
    var b := Locate(route, pos, step, dist);
    assert StartStep(route, step) == step;
    hide Locate, Reaches;
    if b.off.value <= 60.0 {
      assert Reaches(route[b.step].line, pos, dist, b.off.value);
    }
  }

  /** In every run, a route that comes in is followed from its first step with nothing spoken yet, whatever was said before. */
  lemma FetchedRouteStartsAfresh(actions: seq<Action>, route: Route, from: LngLat, dest: LngLat, now: Time, dist: Distance)
    requires Run(actions, dist).fetching
    ensures var g, after := Run(actions, dist), Run(actions + [Fetched(Some(route), from, dest, now)], dist);
      && after.route == Some(route) && after.routes == g.routes + 1 && !after.fetching && after.offCount <= 1
      && 0 <= after.step < |route| && (dist(from, dest) <= 30.0 ==> after.step == 0 && after.spoken == {} && after.said == g.said)
      && (dist(from, dest) > 30.0 ==>
            var step, remaining := route[after.step], dist(from, route[after.step].endsAt);
            && FirstNearest(Locate(route, from, 0, dist), route, from, dist, 0, |route|) && after.step == Locate(route, from, 0, dist).step
            && after.spoken == (set i: nat | i < |step.voice| && remaining <= step.voice[i].distanceAlong :: Key(after.step, i))
            && (after.said == g.said <==> after.spoken == {}))
  {
    assert (actions + [Fetched(Some(route), from, dest, now)])[..|actions|] == actions;
    LocateIsFirstNearest(route, from, 0, dist);
    var g := Run(actions, dist);
    hide Run, Locate, FirstNearest;
    var restarted := Restarted(g, Some(route));
    FreshFix(restarted, route, from, dest, now, dist);
    hide AfterFix;
  }

  /** In every run, starting again or failing to get a route leaves no route, so the next fix short of the destination finds none. */
  lemma NoRouteIsLeft(actions: seq<Action>, a: Action, dist: Distance, pos: LngLat, dest: LngLat, now: Time)
    requires a.Begin? || (a.Fetched? && a.route.None? && Run(actions, dist).fetching)
    ensures var g, after := Run(actions, dist), Run(actions + [a], dist);
      && after.route == None && after.said == g.said && (a.Fetched? ==> !after.fetching) && (a.Begin? ==> after.spoken == {})
      && (dist(pos, dest) > 30.0 ==> AfterFix(after, pos, dest, now, dist).1.NoRoute?)
  {
    assert (actions + [a])[..|actions|] == actions;
    hide Run;
  }

  lemma FreshFix(g: Guide, route: Route, pos: LngLat, dest: LngLat, now: Time, dist: Distance)
    requires g.route == Some(route) && g.step == 0 && g.spoken == {} && g.offCount == 0
    ensures var after := AfterFix(g, pos, dest, now, dist).0;
      && after.route == g.route && after.routes == g.routes && after.offCount <= 1
      && (dist(pos, dest) <= 30.0 ==> after == g)
      && (dist(pos, dest) > 30.0 ==>
            && after.step == Locate(route, pos, 0, dist).step
            && var step, remaining := route[after.step], dist(pos, route[after.step].endsAt);
               && after.spoken == (set i: nat | i < |step.voice| && remaining <= step.voice[i].distanceAlong :: Key(after.step, i))
               && (after.said == g.said <==> after.spoken == {}))
  {
    if dist(pos, dest) > 30.0 {
      var best := Locate(route, pos, 0, dist);
      var step := route[best.step];
      var remaining := dist(pos, step.endsAt);
      hide Locate;
      var due := DueKeys(step, remaining, {}, best.step);
      assert due == set i: nat | i < |step.voice| && remaining <= step.voice[i].distanceAlong :: Key(best.step, i);
      var front := FrontOfSorted(step, remaining, {}, best.step, |step.voice|);
      if front.Some? { assert Key(best.step, front.value) in due; }
      hide FrontOfSorted;
    }
  }

  // ---- The component's references, changed in place ----

  class VoiceGuidance {
    var routes: nat
    var route: Option<Route>
    var step: int
    var offCount: nat
    var spoken: set<Key>
    var fetching: bool
    var lastFetch: Time
    var said: seq<Utterance>

    function State(): Guide
      reads this
    {
      Guide(routes, route, step, offCount, spoken, fetching, lastFetch, said)
    }

    constructor ()
      ensures State() == IDLE && Inv(State())
    {
      routes, route, step, offCount := 0, None, 0, 0;
      spoken, fetching, lastFetch, said := {}, false, 0, [];
    }

    method Start()
      requires Inv(State())
      modifies this
      ensures Inv(State()) && State() == Restarted(old(State()), None)
    {
      routes, route, step, spoken, offCount := routes + 1, None, 0, {}, 0;
    }

    method FetchRoute(now: Time)
      modifies this`fetching, this`lastFetch
      ensures State() == if old(fetching) then old(State()) else Fetch(old(State()), now)
    {
      if fetching { return; }
      fetching := true;
      lastFetch := now;
    }

    method HandleFix(pos: LngLat, dest: LngLat, now: Time, dist: Distance) returns (outcome: Outcome)
      requires Inv(State())
      modifies this
      ensures Inv(State()) && (State(), outcome) == AfterFix(old(State()), pos, dest, now, dist)
    {
      FixKeeps(State(), pos, dest, now, dist);
      hide Inv, Locate, FrontOfSorted;
      if dist(pos, dest) <= ARRIVED_WITHIN_M { return Arrived; }
      if route.None? {
        if !fetching && now - lastFetch > RETRY_MS { FetchRoute(now); }
        return NoRoute;
      }
      var loc := LocateOnRoute(route.value, pos, step, dist);
      step := loc.step;
      if loc.off.None? || loc.off.value > OFF_ROUTE_M { offCount := offCount + 1; } else { offCount := 0; }
      if offCount >= 2 && !fetching && now - lastFetch > REROUTE_MS {
        FetchRoute(now);
        return Rerouting;
      }
      var current := route.value[loc.step];
      var pick := PickAnnouncement(current, dist(pos, current.endsAt), spoken, loc.step);
      if pick.None? { return Silent; }
      spoken := spoken + pick.value.1;
      said := said + [Utterance(routes, Key(loc.step, pick.value.0))];
      return Spoke(pick.value.0);
    }

    /** What FetchRoute does once the response is in. */
    method RouteFetched(fetched: Option<Route>, from: LngLat, dest: LngLat, now: Time, dist: Distance)
      requires Inv(State()) && fetching
      modifies this
      ensures Inv(State()) && State() == Next(old(State()), Fetched(fetched, from, dest, now), dist)
    {
      hide AfterFix, Locate;
      if fetched.Some? {
        routes, route, step, spoken, offCount := routes + 1, fetched, 0, {}, 0;
        var _ := HandleFix(from, dest, now, dist);
      } else {
        route := None;
      }
      fetching := false;
    }
  }
}
