/** The passes a resident created on this device: a bounded list that stands in for a map. */
module PassCache {
  import opened Domain
  import opened Lists

  type PassKey = string

  datatype CreatedPass = CreatedPass(id: PassKey, validUntil: Time, link: string)
  datatype Entry = Entry(pass: CreatedPass, savedAt: Time)

  const MAX_PASSES := 40
  const KEEP_AFTER_EXPIRY_MS := 3 * DAY_MS

  /** Past the days an expired pass is kept for. */
  predicate LongExpired(e: Entry, now: Time) {
    e.pass.validUntil + KEEP_AFTER_EXPIRY_MS <= now
  }

  /** What saving s leaves of the entries already there. */
  function Kept(entries: seq<Entry>, s: Entry): seq<Entry> {
    if entries == [] then []
    else
      var e := entries[|entries| - 1];
      Kept(entries[..|entries| - 1], s) + if e.pass.id != s.pass.id && !LongExpired(e, s.savedAt) then [e] else []
  }

  function Truncated(entries: seq<Entry>): seq<Entry> {
    if |entries| <= MAX_PASSES then entries else entries[..MAX_PASSES]
  }

  /** The device's list after some saves. */
  function Stored(saves: seq<Entry>): seq<Entry> {
    if saves == [] then []
    else
      var s := saves[|saves| - 1];
      Truncated([s] + Kept(Stored(saves[..|saves| - 1]), s))
  }

  /** Where an id stands in a list, or -1. */
  function Place(entries: seq<Entry>, id: PassKey): (place: int)
    ensures -1 <= place < |entries|
    ensures 0 <= place ==> entries[place].pass.id == id && forall i :: 0 <= i < place ==> entries[i].pass.id != id
    ensures place < 0 ==> forall i :: 0 <= i < |entries| ==> entries[i].pass.id != id
  {
    if entries == [] then -1
    else
      var place := Place(entries[..|entries| - 1], id);
      if place < 0 && entries[|entries| - 1].pass.id == id then |entries| - 1 else place
  }

  function Find(entries: seq<Entry>, id: PassKey): Option<CreatedPass> {
    var place := Place(entries, id);
    if place < 0 then None else Some(entries[place].pass)
  }

  class PassStore {
    var entries: seq<Entry>

    constructor ()
      ensures entries == Stored([])
    {
      entries := [];
    }

    method SavePass(pass: CreatedPass, now: Time)
      modifies this
      ensures entries == Truncated([Entry(pass, now)] + Kept(old(entries), Entry(pass, now)))
      ensures forall saves :: old(entries) == Stored(saves) ==> entries == Stored(saves + [Entry(pass, now)])
    {
      ghost var s := Entry(pass, now);
      var all := entries;
      var kept := [];
      for i := 0 to |all|
        invariant entries == all
        invariant kept == Kept(all[..i], s)
      {
        assert all[..i + 1][..i] == all[..i];
        if all[i].pass.id != pass.id && all[i].pass.validUntil + KEEP_AFTER_EXPIRY_MS > now {
          kept := kept + [all[i]];
        }
      }
      assert all[..|all|] == all;
      entries := [Entry(pass, now)] + kept;
      if |entries| > MAX_PASSES {
        entries := entries[..MAX_PASSES];
      }
      forall saves | old(entries) == Stored(saves)
        ensures entries == Stored(saves + [s])
      {
        assert (saves + [s])[..|saves|] == saves;
      }
    }

    method GetPass(id: PassKey) returns (pass: Option<CreatedPass>)
      ensures pass == Find(entries, id)
    {
      for i := 0 to |entries|
        invariant forall k :: 0 <= k < i ==> entries[k].pass.id != id
      {
        if entries[i].pass.id == id { return Some(entries[i].pass); }
      }
      return None;
    }
  }

  // ---- The same saves with no bound on the list ----

  function Remembered(saves: seq<Entry>): seq<Entry> {
    if saves == [] then []
    else
      var s := saves[|saves| - 1];
      [s] + Kept(Remembered(saves[..|saves| - 1]), s)
  }

  /** The last save of an id, or -1. */
  function LastSave(saves: seq<Entry>, id: PassKey): (k: int)
    ensures -1 <= k < |saves|
    ensures 0 <= k ==> saves[k].pass.id == id
    ensures forall m :: k < m < |saves| ==> saves[m].pass.id != id
  {
    if saves == [] then -1
    else if saves[|saves| - 1].pass.id == id then |saves| - 1
    else LastSave(saves[..|saves| - 1], id)
  }

  /** A later save found the id's last pass three days past its end. */
  predicate FoundExpired(saves: seq<Entry>, id: PassKey) {
    var k := LastSave(saves, id);
    0 <= k && exists m :: k < m < |saves| && saves[k].pass.validUntil + 259_200_000 <= saves[m].savedAt
  }

  lemma {:induction false} KeptHas(entries: seq<Entry>, s: Entry, e: Entry)
    ensures e in Kept(entries, s) <==> e in entries && e.pass.id != s.pass.id && !LongExpired(e, s.savedAt)
  {
    if entries != [] {
      var front := entries[..|entries| - 1];
      KeptHas(front, s, e);
      assert entries == front + [entries[|entries| - 1]];
    }
  }

  lemma {:induction false} KeptOfPrefix(some: seq<Entry>, all: seq<Entry>, s: Entry)
    requires some <= all
    ensures Kept(some, s) <= Kept(all, s)
  {
    if |some| < |all| {
      KeptOfPrefix(some, all[..|all| - 1], s);
    } else {
      assert some == all;
    }
  }

  /** Newest first: later in the list is saved earlier. */
  predicate NewestFirst(entries: seq<Entry>, saves: seq<Entry>) {
    && (forall i :: 0 <= i < |entries| ==>
          var k := LastSave(saves, entries[i].pass.id); 0 <= k && entries[i] == saves[k])
    && forall i, j :: 0 <= i < j < |entries| ==> LastSave(saves, entries[i].pass.id) > LastSave(saves, entries[j].pass.id)
  }

  lemma {:induction false} KeptKeepsOrder(entries: seq<Entry>, s: Entry, saves: seq<Entry>)
    requires NewestFirst(entries, saves)
    ensures NewestFirst(Kept(entries, s), saves)
  {
    if entries != [] {
      var front, e := entries[..|entries| - 1], entries[|entries| - 1];
      KeptKeepsOrder(front, s, saves);
      forall i | 0 <= i < |Kept(front, s)|
        ensures LastSave(saves, Kept(front, s)[i].pass.id) > LastSave(saves, e.pass.id)
      {
        KeptHas(front, s, Kept(front, s)[i]);
      }
    }
  }

  lemma {:induction false} RememberedInOrder(saves: seq<Entry>)
    ensures NewestFirst(Remembered(saves), saves)
  {
    if saves != [] {
      var front, s := saves[..|saves| - 1], saves[|saves| - 1];
      var kept := Kept(Remembered(front), s);
      RememberedInOrder(front);
      KeptKeepsOrder(Remembered(front), s, front);
      forall i | 0 <= i < |kept|
        ensures LastSave(saves, kept[i].pass.id) == LastSave(front, kept[i].pass.id)
      {
        KeptHas(Remembered(front), s, kept[i]);
      }
    }
  }

  lemma FoundExpiredSteps(saves: seq<Entry>, id: PassKey)
    requires 0 <= LastSave(saves, id) && saves[|saves| - 1].pass.id != id
    ensures var front := saves[..|saves| - 1];
      FoundExpired(saves, id) <==> FoundExpired(front, id) || LongExpired(saves[LastSave(saves, id)], saves[|saves| - 1].savedAt)
  {
    var front, k := saves[..|saves| - 1], LastSave(saves, id);
    if m :| k < m < |front| && LongExpired(front[k], front[m].savedAt) {
      assert saves[m] == front[m];
    }
    if m :| k < m < |saves| && LongExpired(saves[k], saves[m].savedAt) {
      assert m < |front| ==> front[m] == saves[m];
    }
  }

  lemma RememberedHas(saves: seq<Entry>, id: PassKey)
    requires 0 <= LastSave(saves, id)
    ensures 0 <= Place(Remembered(saves), id) <==> saves[LastSave(saves, id)] in Remembered(saves)
  {
    RememberedInOrder(saves);
  }

  /** With no bound, an id stands in the list until a later save finds it long expired. */
  lemma {:induction false} RememberedUntilExpired(saves: seq<Entry>, id: PassKey)
    requires 0 <= LastSave(saves, id)
    ensures Place(Remembered(saves), id) < 0 <==> FoundExpired(saves, id)
  {
    var front, s := saves[..|saves| - 1], saves[|saves| - 1];
    if s.pass.id == id {
      assert Remembered(saves)[0] == s;
    } else {
      RememberedUntilExpired(front, id);
      FoundExpiredSteps(saves, id);
      RememberedHas(saves, id);
      RememberedHas(front, id);
      KeptHas(Remembered(front), s, saves[LastSave(saves, id)]);
      hide FoundExpired;
    }
  }

  // ---- The bounded list against the unbounded one ----

  /** The device's list is the start of the unbounded one. */
  lemma {:induction false} StoredIsPrefix(saves: seq<Entry>)
    ensures Stored(saves) <= Remembered(saves) && |Stored(saves)| <= MAX_PASSES
  {
    if saves != [] {
      var front, s := saves[..|saves| - 1], saves[|saves| - 1];
      StoredIsPrefix(front);
      KeptOfPrefix(Stored(front), Remembered(front), s);
    }
  }

  /** At most 40 entries, newest first, each the last pass saved under its id. */
  lemma StoredInOrder(saves: seq<Entry>)
    ensures |Stored(saves)| <= MAX_PASSES && NewestFirst(Stored(saves), saves)
  {
    StoredIsPrefix(saves);
    RememberedInOrder(saves);
  }

  lemma PlaceInPrefix(some: seq<Entry>, all: seq<Entry>, id: PassKey)
    requires some <= all
    ensures 0 <= Place(some, id) <==> 0 <= Place(all, id) < |some|
    ensures 0 <= Place(some, id) ==> Place(some, id) == Place(all, id)
  {
    var p, q := Place(some, id), Place(all, id);
    if 0 <= p {
      assert all[p].pass.id == id;
    }
    if 0 <= q < |some| {
      assert some[q].pass.id == id;
    }
  }

  /** After m saves, the id is among the first 40 of the unbounded list. */
  predicate Near(saves: seq<Entry>, m: nat, id: PassKey)
    requires m <= |saves|
  {
    0 <= Place(Remembered(saves[..m]), id) < MAX_PASSES
  }

  predicate AlwaysNear(saves: seq<Entry>, id: PassKey) {
    forall m: nat :: LastSave(saves, id) < m <= |saves| ==> Near(saves, m, id)
  }

  /** A saved id can be shown again exactly when no save since its last one dropped it or put it past the 40th place. */
  lemma {:induction false} FoundExactly(saves: seq<Entry>, id: PassKey)
    requires 0 <= LastSave(saves, id)
    ensures Find(Stored(saves), id).Some? <==> AlwaysNear(saves, id)
  {
    if saves[|saves| - 1].pass.id == id {
      NewestIsFound(saves, id);
    } else {
      FoundExactly(saves[..|saves| - 1], id);
      AlwaysNearSteps(saves, id);
      StepFinds(saves, id);
      hide Remembered, Stored, AlwaysNear;
    }
  }

  lemma NewestIsFound(saves: seq<Entry>, id: PassKey)
    requires saves != [] && LastSave(saves, id) == |saves| - 1
    ensures Find(Stored(saves), id).Some? && AlwaysNear(saves, id)
  {
    hide LastSave, Kept, Place, Truncated;
    var front, s := saves[..|saves| - 1], saves[|saves| - 1];
    StartsPlace(s, Kept(Remembered(front), s));
    StartsPlace(s, Kept(Stored(front), s));
    assert saves[..|saves|] == saves;
    assert Remembered(saves) == [s] + Kept(Remembered(front), s) && Stored(saves) == Truncated([s] + Kept(Stored(front), s));
    hide Stored, Remembered;
  }

  lemma StartsPlace(s: Entry, rest: seq<Entry>)
    ensures Place([s] + rest, s.pass.id) == 0 && Place(Truncated([s] + rest), s.pass.id) == 0
  {
    hide Place;
    assert ([s] + rest)[0] == s && Truncated([s] + rest)[0] == s;
  }

  lemma NearOfPrefix(saves: seq<Entry>, n: nat, m: nat, id: PassKey)
    requires m <= n <= |saves|
    ensures Near(saves[..n], m, id) == Near(saves, m, id)
    ensures Near(saves, |saves|, id) == (0 <= Place(Remembered(saves), id) < MAX_PASSES)
  {
    hide Place, Remembered;
    assert saves[..n][..m] == saves[..m] && saves[..|saves|] == saves;
  }

  lemma AlwaysNearSteps(saves: seq<Entry>, id: PassKey)
    requires saves != [] && saves[|saves| - 1].pass.id != id
    ensures AlwaysNear(saves, id) <==> AlwaysNear(saves[..|saves| - 1], id) && 0 <= Place(Remembered(saves), id) < MAX_PASSES
  {
    hide Near, Place, Remembered;
    var n := |saves| - 1;
    assert LastSave(saves, id) == LastSave(saves[..n], id);
    hide LastSave;
    NearOfPrefix(saves, n, n, id);
    forall m: nat | m <= n
      ensures Near(saves[..n], m, id) == Near(saves, m, id)
    {
      NearOfPrefix(saves, n, m, id);
    }
  }

  /** A save keeps an id when it keeps the entry and leaves it among the first 40. */
  lemma StepFinds(saves: seq<Entry>, id: PassKey)
    requires saves != [] && saves[|saves| - 1].pass.id != id
    ensures Find(Stored(saves), id).Some?
      <==> Find(Stored(saves[..|saves| - 1]), id).Some? && 0 <= Place(Remembered(saves), id) < MAX_PASSES
  {
    var front, s := saves[..|saves| - 1], saves[|saves| - 1];
    var some, all := Stored(front), Remembered(front);
    var whole := [s] + Kept(some, s);
    StoredIsPrefix(front);
    KeptOfPrefix(some, all, s);
    assert Stored(saves) == Truncated(whole) && Remembered(saves) == [s] + Kept(all, s);
    hide Stored, Remembered;
    PlaceInPrefix(whole, Remembered(saves), id);
    PlaceInPrefix(Truncated(whole), whole, id);
    PlaceInPrefix(some, all, id);
    RememberedInOrder(front);
    PlaceKept(some, all, s, id, front);
  }

  /** Filtering treats an id alike in a list and in a start of it that holds the id. */
  lemma PlaceKept(some: seq<Entry>, all: seq<Entry>, s: Entry, id: PassKey, saves: seq<Entry>)
    requires some <= all && NewestFirst(all, saves) && s.pass.id != id
    ensures 0 <= Place([s] + Kept(some, s), id)
      <==> 0 <= Place(some, id) && 0 <= Place([s] + Kept(all, s), id)
  {
    KeptHasId(some, s, id, saves);
    KeptHasId(all, s, id, saves);
    PlaceInPrefix(some, all, id);
  }

  lemma KeptHasId(entries: seq<Entry>, s: Entry, id: PassKey, saves: seq<Entry>)
    requires NewestFirst(entries, saves) && s.pass.id != id
    ensures 0 <= Place([s] + Kept(entries, s), id)
      <==> 0 <= Place(entries, id) && !LongExpired(entries[Place(entries, id)], s.savedAt)
  {
    var kept := [s] + Kept(entries, s);
    var p, q := Place(entries, id), Place(kept, id);
    if 0 <= q {
      assert kept[q] == Kept(entries, s)[q - 1];
      KeptHas(entries, s, kept[q]);
    }
    if 0 <= p && !LongExpired(entries[p], s.savedAt) {
      KeptHas(entries, s, entries[p]);
      assert entries[p] in kept;
    }
  }

  // ---- What a resident sees ----

  /** A pass that is found is the last one saved under its id. */
  lemma FoundIsTheLastSaved(saves: seq<Entry>, id: PassKey)
    ensures Find(Stored(saves), id).Some? ==>
      0 <= LastSave(saves, id) && Find(Stored(saves), id).value == saves[LastSave(saves, id)].pass
  {
    StoredInOrder(saves);
  }

  function Ids(entries: seq<Entry>): (ids: seq<PassKey>)
    ensures |ids| == |entries| && forall i :: 0 <= i < |ids| ==> ids[i] == entries[i].pass.id
  {
    seq(|entries|, i requires 0 <= i < |entries| => entries[i].pass.id)
  }

  lemma AheadSavedLater(saves: seq<Entry>, id: PassKey, i: nat)
    requires i < Place(Remembered(saves), id)
    ensures var x := Remembered(saves)[i].pass.id; x != id && x in Ids(saves[LastSave(saves, id) + 1..])
  {
    hide Remembered, LastSave, Place;
    RememberedInOrder(saves);
    var j, k := LastSave(saves, Remembered(saves)[i].pass.id), LastSave(saves, id);
    assert j > k by { assert Remembered(saves)[Place(Remembered(saves), id)].pass.id == id; }
    hide NewestFirst;
    assert Ids(saves[k + 1..])[j - k - 1] == saves[j].pass.id;
  }

  lemma AheadDistinct(saves: seq<Entry>, place: nat)
    requires place <= |Remembered(saves)|
    ensures Distinct(Ids(Remembered(saves)[..place]))
  {
    RememberedInOrder(saves);
    hide Remembered, LastSave;
  }

  /** As many distinct other ids were saved since as stand before an id. */
  lemma PlaceCounts(saves: seq<Entry>, id: PassKey, place: nat, since: seq<PassKey>)
    requires place == Place(Remembered(saves), id) && since == Ids(saves[LastSave(saves, id) + 1..])
    ensures |Elements(since) - {id}| >= place
  {
    hide LastSave, Remembered, Place, Distinct;
    var ahead := Ids(Remembered(saves)[..place]);
    AheadDistinct(saves, place);
    DistinctCount(ahead);
    forall i | 0 <= i < place
      ensures ahead[i] in Elements(since) - {id}
    {
      AheadSavedLater(saves, id, i);
    }
    SubsetCount(Elements(ahead), Elements(since) - {id});
  }

  lemma NotAlwaysNear(saves: seq<Entry>, id: PassKey) returns (m: nat)
    requires 0 <= LastSave(saves, id) && Find(Stored(saves), id).None?
    ensures LastSave(saves, id) < m <= |saves| && LastSave(saves[..m], id) == LastSave(saves, id)
    ensures Place(Remembered(saves[..m]), id) < 0 || MAX_PASSES <= Place(Remembered(saves[..m]), id)
  {
    hide LastSave, Find, Place, Remembered, Stored;
    FoundExactly(saves, id);
    m :| LastSave(saves, id) < m <= |saves| && !Near(saves, m, id);
    LastSaveOfPrefix(saves, m, id);
  }

  /**
   * A saved pass cannot be found only if a later save found it three days past its end, or 40 other ids were saved
   * since.
   */
  lemma MissingOnlyIf(saves: seq<Entry>, id: PassKey)
    requires 0 <= LastSave(saves, id) && Find(Stored(saves), id).None?
    ensures FoundExpired(saves, id) || |Elements(Ids(saves[LastSave(saves, id) + 1..])) - {id}| >= MAX_PASSES
  {
    hide LastSave, Find, Place, Remembered, Stored, FoundExpired, Ids, Elements;
    var m := NotAlwaysNear(saves, id);
    RememberedUntilExpired(saves[..m], id);
    FoundExpiredLater(saves, m, id);
    if !FoundExpired(saves[..m], id) {
      var k := LastSave(saves, id);
      PlaceCounts(saves[..m], id, Place(Remembered(saves[..m]), id), Ids(saves[..m][k + 1..]));
      SavedSinceGrows(saves, m, k + 1, id);
    }
  }

  lemma FoundExpiredLater(saves: seq<Entry>, m: nat, id: PassKey)
    requires 0 <= LastSave(saves, id) < m <= |saves| && LastSave(saves[..m], id) == LastSave(saves, id)
    ensures FoundExpired(saves[..m], id) ==> FoundExpired(saves, id)
  {
    hide LastSave;
    var k := LastSave(saves, id);
    if n :| k < n < m && LongExpired(saves[..m][k], saves[..m][n].savedAt) {
      assert LongExpired(saves[k], saves[n].savedAt);
    }
  }

  lemma SavedSinceGrows(saves: seq<Entry>, m: nat, from: nat, id: PassKey)
    requires from <= m <= |saves|
    ensures |Elements(Ids(saves[..m][from..])) - {id}| <= |Elements(Ids(saves[from..])) - {id}|
  {
    var some, all := Ids(saves[..m][from..]), Ids(saves[from..]);
    forall x | x in Elements(some)
      ensures x in Elements(all)
    {
      var i :| 0 <= i < |some| && some[i] == x;
      assert all[i] == x;
    }
    SubsetCount(Elements(some) - {id}, Elements(all) - {id});
  }

  lemma {:induction false} LastSaveOfPrefix(saves: seq<Entry>, m: nat, id: PassKey)
    requires LastSave(saves, id) < m <= |saves|
    ensures LastSave(saves[..m], id) == LastSave(saves, id)
  {
    if m < |saves| {
      LastSaveOfPrefix(saves[..|saves| - 1], m, id);
      assert saves[..|saves| - 1][..m] == saves[..m];
    } else {
      assert saves[..m] == saves;
    }
  }
}
