/** The "inside" flag of the pass list: one pass over everyone's newest scans. */
module RecurringListing {
  import opened Domain
  import opened RecurringRules
  import opened RecurringScan

  type PassId = nat

  /** One allowed scan of one of the resident's passes. */
  datatype AllowedScan = AllowedScan(pass: PassId, direction: Direction)

  const LIST_SCANS := 500

  /** Fills the map newest scan first, keeping the first direction seen for each pass. */
  method LastDirections(scans: seq<AllowedScan>) returns (last: map<PassId, Direction>)
    ensures forall p :: p in last <==> FirstSeen(scans, p).Some?
    ensures forall p :: p in last ==> FirstSeen(scans, p) == Some(last[p])
  {
    last := map[];
    for i := 0 to |scans|
      invariant forall p :: p in last <==> FirstSeen(scans[..i], p).Some?
      invariant forall p :: p in last ==> FirstSeen(scans[..i], p) == Some(last[p])
    {
      forall p
        ensures FirstSeen(scans[..i + 1], p) == if FirstSeen(scans[..i], p).Some? then FirstSeen(scans[..i], p)
                                               else if scans[i].pass == p then Some(scans[i].direction) else None
      {
        assert scans[..i + 1] == scans[..i] + [scans[i]];
        FirstSeenAppend(scans[..i], [scans[i]], p);
      }
      if scans[i].pass !in last {
        last := last[scans[i].pass := scans[i].direction];
      }
    }
    assert scans[..|scans|] == scans;
  }

  function FirstSeen(scans: seq<AllowedScan>, p: PassId): Option<Direction> {
    if scans == [] then None
    else if scans[0].pass == p then Some(scans[0].direction)
    else FirstSeen(scans[1..], p)
  }

  lemma {:induction false} FirstSeenAppend(a: seq<AllowedScan>, b: seq<AllowedScan>, p: PassId)
    ensures FirstSeen(a + b, p) == if FirstSeen(a, p).Some? then FirstSeen(a, p) else FirstSeen(b, p)
  {
    if a == [] {
      assert a + b == b;
    } else {
      assert (a + b)[1..] == a[1..] + b;
      FirstSeenAppend(a[1..], b, p);
    }
  }

  /** The query: the newest 500 allowed scans over all the passes together. */
  function Newest(scans: seq<AllowedScan>): seq<AllowedScan> {
    scans[..Min(|scans|, LIST_SCANS)]
  }

  /** Some pass's own allowed directions, newest first. */
  function OfPass(scans: seq<AllowedScan>, p: PassId): seq<Direction> {
    if scans == [] then []
    else (if scans[0].pass == p then [scans[0].direction] else []) + OfPass(scans[1..], p)
  }

  function AllowedNewestFirst(history: seq<ScanRow>): seq<Direction> {
    if history == [] then []
    else
      var v := history[|history| - 1].verdict;
      (if v.Allowed? then [v.direction] else []) + AllowedNewestFirst(history[..|history| - 1])
  }

  lemma {:induction false} FirstIsNewest(scans: seq<AllowedScan>, p: PassId)
    ensures FirstSeen(scans, p) == if OfPass(scans, p) == [] then None else Some(OfPass(scans, p)[0])
  {
    if scans != [] { FirstIsNewest(scans[1..], p); }
  }

  lemma {:induction false} LastAllowedIsNewest(history: seq<ScanRow>)
    ensures DirectionOf(LastAllowed(history)) == if AllowedNewestFirst(history) == [] then None else Some(AllowedNewestFirst(history)[0])
  {
    if history != [] && !history[|history| - 1].verdict.Allowed? {
      LastAllowedIsNewest(history[..|history| - 1]);
    }
  }

  /**
   * The flag agrees with the pass's own latest allowed scan, except exactly when
   * that scan is IN and 500 newer scans of other passes push it out of the query.
   */
  lemma InsideFlagExactly(scans: seq<AllowedScan>, p: PassId, history: seq<ScanRow>)
    requires OfPass(scans, p) == AllowedNewestFirst(history)
    ensures var flag := FirstSeen(Newest(scans), p) == Some(IN);
      var inside := DirectionOf(LastAllowed(history)) == Some(IN);
      flag == inside <==> !(inside && OfPass(Newest(scans), p) == [])
    ensures |scans| <= LIST_SCANS ==> FirstSeen(Newest(scans), p) == DirectionOf(LastAllowed(history))
  {
    var rest := scans[|Newest(scans)|..];
    assert scans == Newest(scans) + rest;
    FirstSeenAppend(Newest(scans), rest, p);
    FirstIsNewest(scans, p);
    FirstIsNewest(Newest(scans), p);
    LastAllowedIsNewest(history);
  }

  // ---- The exception, reached ----

  /** 500 scans of another pass, newest first, going in and out in turn from IN. */
  const OTHERS_SCANS := seq(LIST_SCANS, i => AllowedScan(2, if i % 2 == 0 then OUT else IN))

  lemma {:induction false} OnlyOthers(scans: seq<AllowedScan>, p: PassId)
    requires forall i :: 0 <= i < |scans| ==> scans[i].pass != p
    ensures OfPass(scans, p) == [] && FirstSeen(scans, p) == None
  {
    if scans != [] { OnlyOthers(scans[1..], p); }
  }

  lemma {:induction false} OfPassAppend(a: seq<AllowedScan>, b: seq<AllowedScan>, p: PassId)
    ensures OfPass(a + b, p) == OfPass(a, p) + OfPass(b, p)
  {
    if a == [] {
      assert a + b == b;
    } else {
      var head := if a[0].pass == p then [a[0].direction] else [];
      OfPassAppend(a[1..], b, p);
      assert (a + b)[1..] == a[1..] + b;
      assert OfPass(a + b, p) == head + OfPass(a[1..] + b, p) && OfPass(a, p) == head + OfPass(a[1..], p);
      hide OfPass;
    }
  }

  /** Someone went in and then another of the resident's passes was scanned 500 times: the list no longer shows them inside. */
  lemma FlagIsMissed()
    ensures var scans, history := OTHERS_SCANS + [AllowedScan(1, IN)], [ScanRow(0, Allowed(IN))];
      && OfPass(scans, 1) == AllowedNewestFirst(history)
      && DirectionOf(LastAllowed(history)) == Some(IN) && FirstSeen(Newest(scans), 1) != Some(IN)
  {
    var scans := OTHERS_SCANS + [AllowedScan(1, IN)];
    OnlyOthers(OTHERS_SCANS, 1);
    OfPassAppend(OTHERS_SCANS, [AllowedScan(1, IN)], 1);
    assert Newest(scans) == OTHERS_SCANS;
    assert OfPass([AllowedScan(1, IN)], 1) == [IN] + OfPass([AllowedScan(1, IN)][1..], 1);
    var history := [ScanRow(0, Allowed(IN))];
    assert history[..0] == [];
    assert AllowedNewestFirst(history) == [IN] + AllowedNewestFirst(history[..0]);
  }
}
