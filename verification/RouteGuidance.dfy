/** Where a visitor is on a route, and which instruction is due. Distance is left open. */
module RouteGuidance {
  import opened Domain

  datatype LngLat = LngLat(lng: real, lat: real)
  datatype VoiceInstruction = VoiceInstruction(distanceAlong: real, announcement: string)
  datatype GuidanceStep = GuidanceStep(maneuverAt: LngLat, endsAt: LngLat, line: seq<LngLat>, voice: seq<VoiceInstruction>)
  /** parseRoute gives no route without steps and no step without a line. */
  type Route = steps: seq<GuidanceStep> | steps != [] && forall i :: 0 <= i < |steps| ==> steps[i].line != []
    witness var p := LngLat(0.0, 0.0); [GuidanceStep(p, p, [p], [])]
  type Distance = (LngLat, LngLat) -> real

  const ARRIVED_WITHIN_M := 30.0
  const OFF_ROUTE_M := 60.0

  // ---- Reading a route ----

  datatype RawVoice = RawVoice(distanceAlong: Option<real>, announcement: Option<string>)
  /** location is None when it is missing or has fewer than two numbers. */
  datatype RawStep = RawStep(location: Option<LngLat>, coordinates: seq<LngLat>, voice: seq<RawVoice>)

  function Voices(raw: seq<RawVoice>): seq<VoiceInstruction> {
    if raw == [] then []
    else
      var v := raw[|raw| - 1];
      Voices(raw[..|raw| - 1])
        + if v.distanceAlong.Some? && v.announcement.Some? then [VoiceInstruction(v.distanceAlong.value, v.announcement.value)] else []
  }

  /** A step as the response gives it: its own line or just its manoeuvre, up to where the next one starts. */
  function StepOf(raw: seq<RawStep>, i: nat): GuidanceStep
    requires i < |raw| && raw[i].location.Some?
  {
    var at := raw[i].location.value;
    var line := if raw[i].coordinates != [] then raw[i].coordinates else [at];
    var endsAt := if i + 1 < |raw| && raw[i + 1].location.Some? then raw[i + 1].location.value else line[|line| - 1];
    GuidanceStep(at, endsAt, line, Voices(raw[i].voice))
  }

  /** Of the instructions, those with a distance and a text are kept, in order. */
  lemma {:induction false} VoicesAreComplete(a: seq<RawVoice>, b: seq<RawVoice>, distanceAlong: Option<real>, announcement: Option<string>)
    ensures Voices(a + [RawVoice(distanceAlong, announcement)] + b)
            == Voices(a) + (if distanceAlong == None || announcement == None then []
                            else [VoiceInstruction(distanceAlong.value, announcement.value)]) + Voices(b)
  {
    var whole := a + [RawVoice(distanceAlong, announcement)] + b;
    if b == [] {
      assert whole[..|whole| - 1] == a;
    } else {
      var front := b[..|b| - 1];
      assert whole[..|whole| - 1] == a + [RawVoice(distanceAlong, announcement)] + front;
      VoicesAreComplete(a, front, distanceAlong, announcement);
    }
  }

  method ParseRoute(raw: seq<RawStep>) returns (route: Option<Route>)
    ensures route.Some? <==> raw != [] && forall i :: 0 <= i < |raw| ==> raw[i].location.Some?
    ensures route.Some? ==>
      && |route.value| == |raw|
      && (forall i :: 0 <= i < |raw| ==> route.value[i] == StepOf(raw, i))
      && (forall i :: 0 < i < |raw| ==> route.value[i - 1].endsAt == route.value[i].maneuverAt)
      && (forall i :: 0 <= i < |raw| ==>
            && Some(route.value[i].maneuverAt) == raw[i].location
            && route.value[i].line == if raw[i].coordinates == [] then [route.value[i].maneuverAt] else raw[i].coordinates)
      && var last := route.value[|raw| - 1]; last.endsAt == last.line[|last.line| - 1]
  {
    hide Voices;
    if raw == [] { return None; }
    var steps: seq<GuidanceStep> := [];
    for i := 0 to |raw|
      invariant |steps| == i
      invariant forall k :: 0 <= k < i ==> raw[k].location.Some? && steps[k] == StepOf(raw, k)
    {
      if raw[i].location.None? { return None; }
      var at := raw[i].location.value;
      var line := if raw[i].coordinates != [] then raw[i].coordinates else [at];
      var endsAt := line[|line| - 1];
      if i + 1 < |raw| && raw[i + 1].location.Some? { endsAt := raw[i + 1].location.value; }
      steps := steps + [GuidanceStep(at, endsAt, line, Voices(raw[i].voice))];
    }
    return Some(steps);
  }

  // ---- Finding the step ----

  /** How far from the route, and on which step; off is None for the Infinity the search starts with. */
  datatype Best = Best(step: int, off: Option<real>)

  function Midpoint(a: LngLat, b: LngLat): LngLat {
    LngLat((a.lng + b.lng) / 2.0, (a.lat + b.lat) / 2.0)
  }

  /** As far from one end as from the other, in both directions. */
  lemma MidpointIsHalfway(a: LngLat, b: LngLat)
    ensures var m := Midpoint(a, b); m.lng - a.lng == b.lng - m.lng && m.lat - a.lat == b.lat - m.lat
  {
  }

  function Nearer(best: Best, step: int, d: real): Best {
    if best.off.None? || d < best.off.value then Best(step, Some(d)) else best
  }

  function AlongLine(best: Best, step: int, line: seq<LngLat>, pos: LngLat, dist: Distance): (b: Best)
    ensures b.step == best.step || b.step == step
  {
    if line == [] then best
    else
      var j := |line| - 1;
      var b := Nearer(AlongLine(best, step, line[..j], pos, dist), step, dist(pos, line[j]));
      if j > 0 then Nearer(b, step, dist(pos, Midpoint(line[j - 1], line[j]))) else b
  }

  function AlongRoute(route: Route, pos: LngLat, dist: Distance, start: int, end: int): (b: Best)
    requires 0 <= start <= end <= |route|
    ensures start <= b.step && (b.step == start || b.step < end)
    decreases end
  {
    if end == start then Best(start, None)
    else AlongLine(AlongRoute(route, pos, dist, start, end - 1), end - 1, route[end - 1].line, pos, dist)
  }

  function StartStep(route: Route, fromStep: int): int {
    Min(Max(fromStep, 0), |route| - 1)
  }

  function Locate(route: Route, pos: LngLat, fromStep: int, dist: Distance): (b: Best)
    ensures StartStep(route, fromStep) <= b.step < |route|
  {
    AlongRoute(route, pos, dist, StartStep(route, fromStep), |route|)
  }

  method LocateOnRoute(route: Route, pos: LngLat, fromStep: int, dist: Distance) returns (best: Best)
    ensures best == Locate(route, pos, fromStep, dist)
  {
    var start := StartStep(route, fromStep);
    best := Best(start, None);
    for i := start to |route|
      invariant best == AlongRoute(route, pos, dist, start, i)
    {
      var line := route[i].line;
      ghost var before := best;
      for j := 0 to |line|
        invariant best == AlongLine(before, i, line[..j], pos, dist)
      {
        assert line[..j + 1][..j] == line[..j];
        var d := dist(pos, line[j]);
        if best.off.None? || d < best.off.value { best := Best(i, Some(d)); }
        if j > 0 {
          var mid := LngLat((line[j - 1].lng + line[j].lng) / 2.0, (line[j - 1].lat + line[j].lat) / 2.0);
          var dm := dist(pos, mid);
          if dm < best.off.value { best := Best(i, Some(dm)); }
        }
      }
      assert line[..|line|] == line;
    }
  }

  /** d is the distance to one of the line's vertices, or to the middle of one of its segments. */
  ghost predicate Reaches(line: seq<LngLat>, pos: LngLat, dist: Distance, d: real) {
    exists j :: 0 <= j < |line| && (d == dist(pos, line[j]) || (j > 0 && d == dist(pos, Midpoint(line[j - 1], line[j]))))
  }

  lemma {:induction false} LineGivesNearest(best: Best, step: int, line: seq<LngLat>, pos: LngLat, dist: Distance)
    ensures var b := AlongLine(best, step, line, pos, dist);
      && (forall d :: Reaches(line, pos, dist, d) ==> b.off.Some? && b.off.value <= d)
      && (best.off.Some? ==> b.off.Some? && b.off.value <= best.off.value)
      && (b == best || (b.step == step && b.off.Some? && Reaches(line, pos, dist, b.off.value)
                        && (best.off.Some? ==> b.off.value < best.off.value)))
  {
    if line != [] {
      var front, j := line[..|line| - 1], |line| - 1;
      LineGivesNearest(best, step, front, pos, dist);
      forall d | Reaches(front, pos, dist, d)
        ensures Reaches(line, pos, dist, d)
      {
        var k :| 0 <= k < |front| && (d == dist(pos, front[k]) || (k > 0 && d == dist(pos, Midpoint(front[k - 1], front[k]))));
        assert front[k] == line[k] && (k > 0 ==> front[k - 1] == line[k - 1]);
      }
      forall d | Reaches(line, pos, dist, d)
        ensures Reaches(front, pos, dist, d) || d == dist(pos, line[j]) || (j > 0 && d == dist(pos, Midpoint(line[j - 1], line[j])))
      {
        var k :| 0 <= k < |line| && (d == dist(pos, line[k]) || (k > 0 && d == dist(pos, Midpoint(line[k - 1], line[k]))));
        if k < j {
          assert front[k] == line[k] && (k > 0 ==> front[k - 1] == line[k - 1]);
        }
      }
      assert Reaches(line, pos, dist, dist(pos, line[j]));
      assert j > 0 ==> Reaches(line, pos, dist, dist(pos, Midpoint(line[j - 1], line[j])));
    }
  }

  /** b is the first step in the range that comes nearest, and how near. */
  ghost predicate FirstNearest(b: Best, route: Route, pos: LngLat, dist: Distance, start: int, end: int)
    requires 0 <= start <= end <= |route|
  {
    && (forall i, d :: start <= i < end && Reaches(route[i].line, pos, dist, d) ==> b.off.Some? && b.off.value <= d)
    && (b.off.None? ==> b.step == start)
    && (b.off.Some? ==>
          start <= b.step < end && Reaches(route[b.step].line, pos, dist, b.off.value)
          && forall i, d :: start <= i < b.step && Reaches(route[i].line, pos, dist, d) ==> b.off.value < d)
  }

  lemma {:induction false} RouteGivesFirstNearest(route: Route, pos: LngLat, dist: Distance, start: int, end: int)
    requires 0 <= start <= end <= |route|
    ensures FirstNearest(AlongRoute(route, pos, dist, start, end), route, pos, dist, start, end)
    decreases end
  {
    if start < end {
      RouteGivesFirstNearest(route, pos, dist, start, end - 1);
      LineGivesNearest(AlongRoute(route, pos, dist, start, end - 1), end - 1, route[end - 1].line, pos, dist);
      hide Reaches;
    }
  }

  /** Never backwards, and the first step attaining the true minimum from there on. */
  lemma LocateIsFirstNearest(route: Route, pos: LngLat, fromStep: int, dist: Distance)
    ensures var b := Locate(route, pos, fromStep, dist);
      FirstNearest(b, route, pos, dist, StartStep(route, fromStep), |route|) && b.off.Some?
  {
    var start := StartStep(route, fromStep);
    RouteGivesFirstNearest(route, pos, dist, start, |route|);
    assert Reaches(route[start].line, pos, dist, dist(pos, route[start].line[0]));
  }

  // ---- Choosing what to say ----

  /** An instruction by its step and its place there. */
  datatype Key = Key(step: int, index: nat)

  predicate IsDue(step: GuidanceStep, remaining: real, spoken: set<Key>, stepIndex: int, i: nat) {
    i < |step.voice| && step.voice[i].distanceAlong >= remaining && Key(stepIndex, i) !in spoken
  }

  function DueKeys(step: GuidanceStep, remaining: real, spoken: set<Key>, stepIndex: int): set<Key> {
    set i: nat | i < |step.voice| && IsDue(step, remaining, spoken, stepIndex, i) :: Key(stepIndex, i)
  }

  /** Sorting what is due by distance puts the first of the nearest in front. */
  function FrontOfSorted(step: GuidanceStep, remaining: real, spoken: set<Key>, stepIndex: int, n: nat): (front: Option<nat>)
    requires n <= |step.voice|
    ensures front.Some? ==> front.value < n && IsDue(step, remaining, spoken, stepIndex, front.value)
    ensures forall i :: 0 <= i < n && IsDue(step, remaining, spoken, stepIndex, i) ==>
      front.Some? && step.voice[front.value].distanceAlong <= step.voice[i].distanceAlong
      && (i < front.value ==> step.voice[front.value].distanceAlong < step.voice[i].distanceAlong)
  {
    if n == 0 then None
    else
      var earlier := FrontOfSorted(step, remaining, spoken, stepIndex, n - 1);
      if IsDue(step, remaining, spoken, stepIndex, n - 1)
         && (earlier.None? || step.voice[n - 1].distanceAlong < step.voice[earlier.value].distanceAlong)
      then Some(n - 1) else earlier
  }

  /** The instruction to speak, and all that count as spoken with it. */
  function PickAnnouncement(step: GuidanceStep, remaining: real, spoken: set<Key>, stepIndex: int): Option<(nat, set<Key>)> {
    var front := FrontOfSorted(step, remaining, spoken, stepIndex, |step.voice|);
    if front.None? then None else Some((front.value, DueKeys(step, remaining, spoken, stepIndex)))
  }
}
