/** The batched sweep that marks passes expired, with other requests changing rows between its writes. */
module ExpirySweep {
  import opened Domain
  import opened Lists
  import opened GateLedger
  import opened GateOneTime

  const BATCH := 200
  const NOTIFY_WITHIN_MS := 24 * 3_600_000

  type Rows = map<InvitationId, Invitation>

  /** What other requests do to the table before the sweep's k-th own write. */
  type Others = nat -> Rows -> Rows

  // ---- The query: up to 200 overdue rows, in whatever order the table is scanned ----

  ghost predicate Scans(scan: seq<InvitationId>, rows: Rows) {
    && (forall i :: 0 <= i < |scan| ==> scan[i] in rows)
    && (forall id :: id in rows ==> id in scan)
    && Distinct(scan)
  }

  function OverdueIn(scan: seq<InvitationId>, rows: Rows, at: Time): seq<InvitationId> {
    if scan == [] then []
    else (if scan[0] in rows && Overdue(rows[scan[0]], at) then [scan[0]] else []) + OverdueIn(scan[1..], rows, at)
  }

  function TakeBatch(ids: seq<InvitationId>): seq<InvitationId> {
    if |ids| <= BATCH then ids else ids[..BATCH]
  }

  function Selected(scan: seq<InvitationId>, seen: Rows, at: Time): seq<InvitationId> {
    TakeBatch(OverdueIn(scan, seen, at))
  }

  function OverdueSet(rows: Rows, at: Time): set<InvitationId> {
    set id | id in rows && rows[id].status == ACTIVE && rows[id].validUntil < at
  }

  lemma {:induction false} OverdueInIsExact(scan: seq<InvitationId>, rows: Rows, at: Time)
    requires Distinct(scan)
    ensures var found := OverdueIn(scan, rows, at);
      && (forall id :: id in found <==> id in scan && id in rows && Overdue(rows[id], at))
      && Distinct(found)
  {
    if scan != [] {
      OverdueInIsExact(scan[1..], rows, at);
      assert scan[0] !in scan[1..];
      assert scan == [scan[0]] + scan[1..];
    }
  }

  // ---- The loop ----

  /** The table after the sweep's first k own writes. */
  function AfterWrites(rows: Rows, batch: seq<InvitationId>, at: Time, others: Others, k: nat): Rows
    requires k <= |batch|
  {
    if k == 0 then rows
    else ExpireOne(others(k - 1)(AfterWrites(rows, batch, at, others, k - 1)), batch[k - 1], at)
  }

  /** The table its k-th own write finds. */
  function Before(rows: Rows, batch: seq<InvitationId>, at: Time, others: Others, k: nat): Rows
    requires k <= |batch|
  {
    others(k)(AfterWrites(rows, batch, at, others, k))
  }

  /** The rows the first k own writes really changed, in order. */
  function Flipped(rows: Rows, batch: seq<InvitationId>, at: Time, others: Others, k: nat): seq<InvitationId>
    requires k <= |batch|
  {
    if k == 0 then []
    else
      var seen := Before(rows, batch, at, others, k - 1);
      Flipped(rows, batch, at, others, k - 1)
        + if batch[k - 1] in seen && Overdue(seen[batch[k - 1]], at) then [batch[k - 1]] else []
  }

  lemma WritesStart(rows: Rows, batch: seq<InvitationId>, at: Time, others: Others)
    ensures AfterWrites(rows, batch, at, others, 0) == rows && Flipped(rows, batch, at, others, 0) == []
  {
  }

  lemma WritesStep(rows: Rows, batch: seq<InvitationId>, at: Time, others: Others, k: nat)
    requires k < |batch|
    ensures var seen := Before(rows, batch, at, others, k);
      && AfterWrites(rows, batch, at, others, k + 1) == ExpireOne(seen, batch[k], at)
      && Flipped(rows, batch, at, others, k + 1)
         == Flipped(rows, batch, at, others, k) + if batch[k] in seen && Overdue(seen[batch[k]], at) then [batch[k]] else []
  {
    hide ExpireOne, Overdue;
  }

  lemma {:induction false} FlippedStaysInBatch(rows: Rows, batch: seq<InvitationId>, at: Time, others: Others, k: nat)
    requires k <= |batch| && Distinct(batch)
    ensures Distinct(Flipped(rows, batch, at, others, k))
    ensures forall id :: id in Flipped(rows, batch, at, others, k) ==> id in batch[..k]
  {
    if k > 0 {
      FlippedStaysInBatch(rows, batch, at, others, k - 1);
      assert batch[..k] == batch[..k - 1] + [batch[k - 1]];
      assert batch[k - 1] !in batch[..k - 1];
    }
  }

  /** Whatever others do: each row gets one message if its own write flipped it, and none otherwise. */
  lemma {:induction false} OneMessagePerFlip(rows: Rows, batch: seq<InvitationId>, at: Time, others: Others, k: nat, i: nat)
    requires i < k <= |batch| && Distinct(batch)
    ensures Distinct(Flipped(rows, batch, at, others, k))
    ensures batch[i] in Flipped(rows, batch, at, others, k) <==>
      var seen := Before(rows, batch, at, others, i);
      batch[i] in seen && seen[batch[i]].status == ACTIVE && seen[batch[i]].validUntil < at
  {
    FlippedStaysInBatch(rows, batch, at, others, k);
    if i < k - 1 {
      OneMessagePerFlip(rows, batch, at, others, k - 1, i);
      assert batch[i] != batch[k - 1];
    } else {
      FlippedStaysInBatch(rows, batch, at, others, i);
    }
  }

  /**
   * Rows the quiet update marked are not in the batch, whatever others do before the query, and so nobody is told about
   * them: only an extension that moves a row's end could bring it back, and then to an end that has passed as well.
   */
  lemma QuietRowsAreNotMessaged(scan: seq<InvitationId>, rows: Rows, seen: Rows, at: Time, id: InvitationId)
    requires Distinct(scan) && RowsEvolve(ExpireAll(rows, at - NOTIFY_WITHIN_MS), seen)
    requires id in rows && rows[id].status == ACTIVE && rows[id].validUntil < at - NOTIFY_WITHIN_MS && id in Selected(scan, seen, at)
    ensures rows[id].validUntil < seen[id].validUntil < at
  {
    var quiet := ExpireAll(rows, at - NOTIFY_WITHIN_MS);
    OverdueInIsExact(scan, seen, at);
    assert Evolves(quiet[id], seen[id]) && quiet[id].status == EXPIRED;
  }

  /** Where the database may throw: then the sweep stops and counts nothing. */
  datatype Failure = Never | AtQuiet | AtQuery | AtWrite(k: nat)

  /** How many of its own writes the loop gets through. */
  function WritesDone(batch: seq<InvitationId>, failure: Failure): (done: nat)
    ensures done <= |batch|
  {
    if failure.AtWrite? && failure.k < |batch| then failure.k else |batch|
  }

  /** The table the loop leaves. */
  function TableLeft(rows: Rows, batch: seq<InvitationId>, at: Time, others: Others, done: nat): Rows
    requires done <= |batch|
  {
    if done < |batch| then Before(rows, batch, at, others, done) else AfterWrites(rows, batch, at, others, done)
  }

  // ---- Without interference ----

  /** Nobody else changes anything. */
  const ALONE: Others := _ => rows => rows

  function AfterSweep(rows: Rows, scan: seq<InvitationId>, at: Time): Rows {
    var quiet := ExpireAll(rows, at - NOTIFY_WITHIN_MS);
    var batch := Selected(scan, quiet, at);
    AfterWrites(quiet, batch, at, ALONE, |batch|)
  }

  /** What the first k own writes make of the table when nothing else does. */
  ghost predicate FlippedFirst(rows: Rows, after: Rows, batch: seq<InvitationId>, k: nat)
    requires k <= |batch|
  {
    after.Keys == rows.Keys
    && forall id :: id in rows ==> after[id] == if id in batch[..k] then rows[id].(status := EXPIRED) else rows[id]
  }

  lemma OneMoreFlipped(rows: Rows, after: Rows, batch: seq<InvitationId>, at: Time, k: nat)
    requires 0 < k <= |batch| && Distinct(batch) && FlippedFirst(rows, after, batch, k - 1)
    requires batch[k - 1] in OverdueSet(rows, at)
    ensures batch[k - 1] in after && Overdue(after[batch[k - 1]], at)
    ensures FlippedFirst(rows, ExpireOne(after, batch[k - 1], at), batch, k)
  {
    assert batch[..k] == batch[..k - 1] + [batch[k - 1]];
    assert batch[k - 1] !in batch[..k - 1];
    hide Distinct;
  }

  lemma AloneSteps(rows: Rows, batch: seq<InvitationId>, at: Time, k: nat)
    requires 0 < k <= |batch|
    ensures var before := AfterWrites(rows, batch, at, ALONE, k - 1);
      && AfterWrites(rows, batch, at, ALONE, k) == ExpireOne(before, batch[k - 1], at)
      && Flipped(rows, batch, at, ALONE, k)
         == Flipped(rows, batch, at, ALONE, k - 1)
            + if batch[k - 1] in before && Overdue(before[batch[k - 1]], at) then [batch[k - 1]] else []
  {
    hide ExpireOne, Overdue;
  }

  /** Every row of the batch is due. */
  predicate AllDue(batch: seq<InvitationId>, rows: Rows, at: Time) {
    forall i :: 0 <= i < |batch| ==> batch[i] in OverdueSet(rows, at)
  }

  lemma {:induction false} AloneWritesEach(rows: Rows, batch: seq<InvitationId>, at: Time, k: nat)
    requires k <= |batch| && Distinct(batch) && AllDue(batch, rows, at)
    ensures FlippedFirst(rows, AfterWrites(rows, batch, at, ALONE, k), batch, k)
  {
    if k > 0 {
      assert batch[k - 1] in OverdueSet(rows, at);
      hide AfterWrites, Flipped, Before, FlippedFirst, OverdueSet, Distinct, Overdue, ExpireOne, AllDue;
      AloneWritesEach(rows, batch, at, k - 1);
      AloneSteps(rows, batch, at, k);
      OneMoreFlipped(rows, AfterWrites(rows, batch, at, ALONE, k - 1), batch, at, k);
    }
  }

  lemma {:induction false} AloneFlipsEach(rows: Rows, batch: seq<InvitationId>, at: Time, k: nat)
    requires k <= |batch| && Distinct(batch) && AllDue(batch, rows, at)
    ensures Flipped(rows, batch, at, ALONE, k) == batch[..k]
  {
    if k > 0 {
      assert batch[k - 1] in OverdueSet(rows, at);
      hide AfterWrites, Flipped, Before, FlippedFirst, OverdueSet, Distinct, Overdue, ExpireOne, AllDue;
      AloneFlipsEach(rows, batch, at, k - 1);
      AloneWritesEach(rows, batch, at, k - 1);
      AloneSteps(rows, batch, at, k);
      OneMoreFlipped(rows, AfterWrites(rows, batch, at, ALONE, k - 1), batch, at, k);
      TakeOneMore(batch, k);
    }
  }

  lemma RecentCount(rows: Rows, scan: seq<InvitationId>, at: Time)
    requires Scans(scan, rows)
    ensures var quiet := ExpireAll(rows, at - NOTIFY_WITHIN_MS);
      && Distinct(Selected(scan, quiet, at))
      && (forall id :: id in Selected(scan, quiet, at) ==> id in OverdueSet(quiet, at))
      && |Selected(scan, quiet, at)| == Min(BATCH, |OverdueSet(quiet, at)|)
  {
    var quiet := ExpireAll(rows, at - NOTIFY_WITHIN_MS);
    var found := OverdueIn(scan, quiet, at);
    OverdueInIsExact(scan, quiet, at);
    assert Elements(found) == OverdueSet(quiet, at);
    DistinctCount(found);
  }

  /** ALONE, one sweep tells everyone in its batch and turns k recently overdue rows into max(0, k - 200). */
  lemma SweepAlone(rows: Rows, scan: seq<InvitationId>, at: Time)
    requires Scans(scan, rows)
    ensures var quiet := ExpireAll(rows, at - NOTIFY_WITHIN_MS);
      && Flipped(quiet, Selected(scan, quiet, at), at, ALONE, |Selected(scan, quiet, at)|) == Selected(scan, quiet, at)
      && |OverdueSet(AfterSweep(rows, scan, at), at)| == Max(0, |OverdueSet(quiet, at)| - BATCH)
      && AfterSweep(rows, scan, at).Keys == rows.Keys
  {
    var quiet := ExpireAll(rows, at - NOTIFY_WITHIN_MS);
    var batch := Selected(scan, quiet, at);
    RecentCount(rows, scan, at);
    AloneWritesEach(quiet, batch, at, |batch|);
    AloneFlipsEach(quiet, batch, at, |batch|);
    assert batch[..|batch|] == batch;
    DistinctCount(batch);
    RestAfterBatch(quiet, AfterSweep(rows, scan, at), batch, at);
  }

  lemma RestAfterBatch(before: Rows, after: Rows, batch: seq<InvitationId>, at: Time)
    requires after.Keys == before.Keys && Elements(batch) <= OverdueSet(before, at)
    requires forall id :: id in before ==> after[id] == if id in batch then before[id].(status := EXPIRED) else before[id]
    ensures |OverdueSet(after, at)| == |OverdueSet(before, at)| - |Elements(batch)|
  {
    assert OverdueSet(after, at) == OverdueSet(before, at) - Elements(batch);
  }

  function Sweeps(rows: Rows, scan: seq<InvitationId>, at: Time, n: nat): Rows {
    if n == 0 then rows else AfterSweep(Sweeps(rows, scan, at, n - 1), scan, at)
  }

  /** Repeated sweeps clear any backlog: after n of them at most k - 200 n overdue rows are left. */
  lemma {:induction false} BacklogShrinks(rows: Rows, scan: seq<InvitationId>, at: Time, n: nat)
    requires Scans(scan, rows)
    ensures Sweeps(rows, scan, at, n).Keys == rows.Keys
    ensures |OverdueSet(Sweeps(rows, scan, at, n), at)| <= Max(0, |OverdueSet(rows, at)| - n * BATCH)
  {
    if n > 0 {
      BacklogShrinks(rows, scan, at, n - 1);
      var earlier := Sweeps(rows, scan, at, n - 1);
      SweepAlone(earlier, scan, at);
      SubsetCount(OverdueSet(ExpireAll(earlier, at - NOTIFY_WITHIN_MS), at), OverdueSet(earlier, at));
    }
  }

  /** Rows are as they were, or were ACTIVE and past their end and are now EXPIRED. */
  ghost predicate OnlyExpires(before: Rows, after: Rows, at: Time) {
    && after.Keys == before.Keys
    && forall id :: id in before ==>
         after[id] == before[id]
         || (before[id].status == ACTIVE && before[id].validUntil < at && after[id] == before[id].(status := EXPIRED))
  }

  lemma {:induction false} WritesOnlyExpire(rows: Rows, batch: seq<InvitationId>, at: Time, k: nat)
    requires k <= |batch|
    ensures OnlyExpires(rows, AfterWrites(rows, batch, at, ALONE, k), at)
  {
    if k > 0 { WritesOnlyExpire(rows, batch, at, k - 1); }
  }

  lemma QuietOnlyExpires(rows: Rows, at: Time)
    ensures OnlyExpires(rows, ExpireAll(rows, at - NOTIFY_WITHIN_MS), at)
  {
  }

  lemma {:induction false} SweepsOnlyExpire(rows: Rows, scan: seq<InvitationId>, at: Time, n: nat)
    ensures OnlyExpires(rows, Sweeps(rows, scan, at, n), at)
  {
    if n > 0 {
      var earlier := Sweeps(rows, scan, at, n - 1);
      var quiet := ExpireAll(earlier, at - NOTIFY_WITHIN_MS);
      SweepsOnlyExpire(rows, scan, at, n - 1);
      WritesOnlyExpire(quiet, Selected(scan, quiet, at), at, |Selected(scan, quiet, at)|);
      QuietOnlyExpires(earlier, at);
      hide AfterWrites, Selected, ExpireAll;
    }
  }

  /**
   * So enough sweeps mark every pass that is ACTIVE and past its end as EXPIRED, whatever its kind and however long ago it
   * ran out, and change no other.
   */
  lemma BacklogCleared(rows: Rows, scan: seq<InvitationId>, at: Time, n: nat)
    requires Scans(scan, rows) && |set id | id in rows && rows[id].status == ACTIVE && rows[id].validUntil < at| <= n * 200
    ensures Sweeps(rows, scan, at, n)
            == map id | id in rows ::
                 if rows[id].status == ACTIVE && rows[id].validUntil < at then rows[id].(status := EXPIRED) else rows[id]
  {
    BacklogShrinks(rows, scan, at, n);
    SweepsOnlyExpire(rows, scan, at, n);
    var after := Sweeps(rows, scan, at, n);
    hide Sweeps, Scans;
    assert (set id | id in rows && rows[id].status == ACTIVE && rows[id].validUntil < at) == OverdueSet(rows, at);
    assert OverdueSet(after, at) == {};
    forall id | id in rows && after[id] == rows[id] && rows[id].status == ACTIVE
      ensures !(rows[id].validUntil < at)
    {
      assert id !in OverdueSet(after, at);
    }
  }

  /** The passes that ran out within the last day. */
  function RanOutLately(rows: Rows, at: Time): set<InvitationId> {
    set id | id in rows && rows[id].status == ACTIVE && at - 86_400_000 <= rows[id].validUntil < at
  }

  lemma LatelyIsLeft(rows: Rows, at: Time)
    ensures OverdueSet(ExpireAll(rows, at - NOTIFY_WITHIN_MS), at) == RanOutLately(rows, at)
  {
  }

  /** Alone, one sweep tells up to 200 of those whose pass ran out within the last day, each once, and nobody else. */
  lemma SweepTellsExactly(rows: Rows, scan: seq<InvitationId>, at: Time)
    requires Scans(scan, rows)
    ensures var quiet := ExpireAll(rows, at - NOTIFY_WITHIN_MS);
      var told := Flipped(quiet, Selected(scan, quiet, at), at, ALONE, |Selected(scan, quiet, at)|);
      && Distinct(told) && (forall id :: id in told ==> id in RanOutLately(rows, at))
      && |told| == if |RanOutLately(rows, at)| < 200 then |RanOutLately(rows, at)| else 200
  {
    SweepAlone(rows, scan, at);
    RecentCount(rows, scan, at);
    LatelyIsLeft(rows, at);
    hide Flipped, Selected, ExpireAll, RanOutLately, OverdueSet, Scans, Distinct;
  }
}
