/**
 * The dashboard's quick log (src/pages/DashboardOverview.tsx,
 * `handleQuickLog`): logging a status for a habit on the selected day
 * patches the first entry already in that day's bucket for the habit, or
 * creates one new entry that refers to the habit and is dated on that day.
 * The record store behind the REST service is an in-memory list of entries.
 */
module QuickLog {
  import opened Seqs
  import opened AppTypes
  import opened RecordUrls
  import opened Calendar
  import opened TrackingIndex
  import opened DashboardStats

  /** The entry with only its status replaced (`update(id, { status })`). */
  function WithStatus(e: Entry, status: Status): (r: Entry)
    ensures r.fields.status == Some(status)
    ensures EntryKey(r) == EntryKey(e)
    ensures r.(fields := r.fields.(status := e.fields.status)) == e
  {
    e.(fields := e.fields.(status := Some(status)))
  }

  /**
   * The entry created for a habit: a reference to the habit's record, the
   * selected day's timestamp and the status, and nothing else. Its record id
   * and creation time are the ones the store assigns.
   */
  function NewEntry(habit: Habit, status: Status, selected: Day, clock: string, newId: string, createdAt: string): (r: Entry)
    ensures r.recordId == newId
    ensures r.fields.gewohnheit == Some(CreateRecordUrl(GewohnheitenAppId, habit.recordId))
    ensures r.fields.datumUhrzeit.Some? && DatePart(r.fields.datumUhrzeit.value) == DayKey(selected)
    ensures r.fields.status == Some(status)
    ensures r.fields.bewertung.None? && r.fields.notizen.None?
  {
    DatePartOfTimestamp(selected, clock);
    Record(newId, createdAt, None,
      TrackingFields(Some(CreateRecordUrl(GewohnheitenAppId, habit.recordId)),
                     Some(Timestamp(selected, clock)), Some(status), None, None))
  }

  /**
   * The entries after a quick log: when the selected day's bucket for the
   * habit is non-empty, only the status of its first entry changes and no
   * entry is added; otherwise exactly one new entry is appended.
   */
  function Upsert(entries: seq<Entry>, habit: Habit, status: Status, selected: Day,
                  clock: string, newId: string, createdAt: string): (r: seq<Entry>)
    ensures FirstWithKey(entries, DayKey(selected), habit.recordId).Some? ==>
              var i := FirstWithKey(entries, DayKey(selected), habit.recordId).value;
              && |r| == |entries|
              && r[i] == WithStatus(entries[i], status)
              && (forall j | 0 <= j < |r| && j != i :: r[j] == entries[j])
    ensures FirstWithKey(entries, DayKey(selected), habit.recordId).None? ==>
              r == entries + [NewEntry(habit, status, selected, clock, newId, createdAt)]
  {
    match FirstWithKey(entries, DayKey(selected), habit.recordId)
    case Some(i) => entries[i := WithStatus(entries[i], status)]
    case None => entries + [NewEntry(habit, status, selected, clock, newId, createdAt)]
  }

  /** For a habit with a 24-hex id, the new entry falls into the (selected day, habit) bucket. */
  lemma NewEntryIsBucketed(habit: Habit, status: Status, selected: Day, clock: string, newId: string, createdAt: string)
    requires IsRecordId(habit.recordId)
    ensures HasKey(NewEntry(habit, status, selected, clock, newId, createdAt), DayKey(selected), habit.recordId)
  {
    RoundTrip(GewohnheitenAppId, habit.recordId);
    DatePartOfTimestamp(selected, clock);
  }

  /** Replacing an entry by one with the same key leaves every other bucket as it was. */
  lemma {:induction false} MatchingReplace(entries: seq<Entry>, i: nat, x: Entry, day: string, habitId: string)
    requires i < |entries| && EntryKey(x) == EntryKey(entries[i]) && !HasKey(x, day, habitId)
    ensures Matching(entries[i := x], day, habitId) == Matching(entries, day, habitId)
    decreases |entries|
  {
    var n := |entries|;
    var s := entries[i := x];
    if i == n - 1 {
      assert s[..n - 1] == entries[..n - 1];
    } else {
      MatchingReplace(entries[..n - 1], i, x, day, habitId);
      assert s[..n - 1] == entries[..n - 1][i := x];
    }
  }

  /** A quick log changes no bucket but the (selected day, habit) one. */
  lemma UpsertKeepsOtherBuckets(entries: seq<Entry>, habit: Habit, status: Status, selected: Day,
                                clock: string, newId: string, createdAt: string, day: string, habitId: string)
    requires IsRecordId(habit.recordId)
    requires (day, habitId) != (DayKey(selected), habit.recordId)
    ensures Matching(Upsert(entries, habit, status, selected, clock, newId, createdAt), day, habitId)
            == Matching(entries, day, habitId)
  {
    var key := DayKey(selected);
    MatchingHead(entries, key, habit.recordId);
    match FirstWithKey(entries, key, habit.recordId)
    case Some(i) =>
      MatchingReplace(entries, i, WithStatus(entries[i], status), day, habitId);
    case None =>
      var e := NewEntry(habit, status, selected, clock, newId, createdAt);
      NewEntryIsBucketed(habit, status, selected, clock, newId, createdAt);
      MatchingAppend(entries, e, day, habitId);
  }

  /**
   * After a quick log of a habit with a 24-hex id, the first entry of the
   * (selected day, habit) bucket carries the logged status; when the bucket
   * already existed, that is still the entry it started with.
   */
  lemma UpsertFirst(entries: seq<Entry>, habit: Habit, status: Status, selected: Day,
                    clock: string, newId: string, createdAt: string)
    requires IsRecordId(habit.recordId)
    ensures var r := Upsert(entries, habit, status, selected, clock, newId, createdAt);
            var f := FirstWithKey(r, DayKey(selected), habit.recordId);
            && f.Some?
            && r[f.value].fields.status == Some(status)
            && (FirstWithKey(entries, DayKey(selected), habit.recordId).Some? ==>
                  f == FirstWithKey(entries, DayKey(selected), habit.recordId))
  {
    var key, rid := DayKey(selected), habit.recordId;
    var r := Upsert(entries, habit, status, selected, clock, newId, createdAt);
    match FirstWithKey(entries, key, rid)
    case Some(i) =>
      FirstWithKeyAt(r, key, rid, i);
    case None =>
      NewEntryIsBucketed(habit, status, selected, clock, newId, createdAt);
      assert forall j | 0 <= j < |entries| :: r[j] == entries[j];
      FirstWithKeyAt(r, key, rid, |entries|);
  }

  /** The first position holding the key is the one `FirstWithKey` finds. */
  lemma FirstWithKeyAt(entries: seq<Entry>, day: string, habitId: string, i: nat)
    requires i < |entries| && HasKey(entries[i], day, habitId)
    requires forall j | 0 <= j < i :: !HasKey(entries[j], day, habitId)
    ensures FirstWithKey(entries, day, habitId) == Some(i)
  {
    var f := FirstWithKey(entries, day, habitId);
    assert f.Some?;
    assert !(f.value < i) && !(f.value > i);
  }

  /** After a quick log, the (selected day, habit) cell shows the logged status. */
  lemma CellAfterQuickLog(idx: Index, entries: seq<Entry>, habit: Habit, status: Status, selected: Day,
                          clock: string, newId: string, createdAt: string)
    requires IsRecordId(habit.recordId)
    requires IndexOf(idx, Upsert(entries, habit, status, selected, clock, newId, createdAt))
    ensures CellStatus(idx, DayKey(selected), habit.recordId) == Some(status)
  {
    UpsertFirst(entries, habit, status, selected, clock, newId, createdAt);
    CellShowsFirstEntry(idx, Upsert(entries, habit, status, selected, clock, newId, createdAt),
                        DayKey(selected), habit.recordId);
  }

  /**
   * Logging the same habit on the same day twice adds at most one entry, and
   * the cell then shows the second status.
   */
  lemma QuickLogTwice(entries: seq<Entry>, habit: Habit, s1: Status, s2: Status, selected: Day,
                      clock1: string, clock2: string, id1: string, id2: string, at1: string, at2: string)
    requires IsRecordId(habit.recordId)
    ensures var once := Upsert(entries, habit, s1, selected, clock1, id1, at1);
            var twice := Upsert(once, habit, s2, selected, clock2, id2, at2);
            && |once| <= |entries| + 1
            && |twice| == |once|
            && FirstWithKey(twice, DayKey(selected), habit.recordId).Some?
            && twice[FirstWithKey(twice, DayKey(selected), habit.recordId).value].fields.status == Some(s2)
  {
    var once := Upsert(entries, habit, s1, selected, clock1, id1, at1);
    UpsertFirst(entries, habit, s1, selected, clock1, id1, at1);
    MatchingHead(once, DayKey(selected), habit.recordId);
    UpsertFirst(once, habit, s2, selected, clock2, id2, at2);
  }

  /**
   * Logging "done" for today extends the run of done days that ended
   * yesterday by one: the streak becomes 1 plus yesterday's streak.
   */
  lemma QuickLogDoneExtendsStreak(entries: seq<Entry>, habit: Habit, today: Day,
                                  clock: string, newId: string, createdAt: string)
    requires IsRecordId(habit.recordId)
    ensures StreakLen(Upsert(entries, habit, Erledigt, today, clock, newId, createdAt), habit.recordId, today)
            == 1 + StreakLen(entries, habit.recordId, today - 1)
  {
    var rid := habit.recordId;
    var r := Upsert(entries, habit, Erledigt, today, clock, newId, createdAt);
    DoneAfterQuickLog(entries, habit, today, clock, newId, createdAt);
    EarlierDaysUnchanged(entries, habit, Erledigt, today, clock, newId, createdAt);
    RunAgrees(DoneDays(r, rid), DoneDays(entries, rid), today - 1);
  }

  /** Logging "done" makes the selected day a done day for the habit. */
  lemma DoneAfterQuickLog(entries: seq<Entry>, habit: Habit, selected: Day,
                          clock: string, newId: string, createdAt: string)
    requires IsRecordId(habit.recordId)
    ensures DoneDays(Upsert(entries, habit, Erledigt, selected, clock, newId, createdAt), habit.recordId)(selected)
  {
    var rid := habit.recordId;
    var r := Upsert(entries, habit, Erledigt, selected, clock, newId, createdAt);
    UpsertFirst(entries, habit, Erledigt, selected, clock, newId, createdAt);
    var f := FirstWithKey(r, DayKey(selected), rid).value;
    assert r[f] in Matching(r, DayKey(selected), rid);
    assert AnyDone(Matching(r, DayKey(selected), rid));
  }

  /** A quick log leaves the done days before the selected day as they were. */
  lemma EarlierDaysUnchanged(entries: seq<Entry>, habit: Habit, status: Status, selected: Day,
                             clock: string, newId: string, createdAt: string)
    requires IsRecordId(habit.recordId)
    ensures var r := Upsert(entries, habit, status, selected, clock, newId, createdAt);
            forall d | 0 <= d < selected :: DoneDays(r, habit.recordId)(d) == DoneDays(entries, habit.recordId)(d)
  {
    forall d | 0 <= d < selected
      ensures Matching(Upsert(entries, habit, status, selected, clock, newId, createdAt), DayKey(d), habit.recordId)
              == Matching(entries, DayKey(d), habit.recordId)
    {
      DayKeyInjective(d, selected);
      UpsertKeepsOtherBuckets(entries, habit, status, selected, clock, newId, createdAt, DayKey(d), habit.recordId);
    }
  }

  /** The first position of the record with id `id`, if any. */
  function PositionOf(entries: seq<Entry>, id: string): (r: Option<nat>)
    ensures r.Some? ==> r.value < |entries| && entries[r.value].recordId == id
    ensures r.Some? ==> forall j | 0 <= j < r.value :: entries[j].recordId != id
    ensures r.None? ==> forall j | 0 <= j < |entries| :: entries[j].recordId != id
  {
    if entries == [] then None
    else if entries[0].recordId == id then Some(0)
    else
      match PositionOf(entries[1..], id)
      case None => None
      case Some(k) => Some(k + 1)
  }

  /** Record ids are distinct. */
  predicate DistinctIds(entries: seq<Entry>)
  {
    forall i, j | 0 <= i < j < |entries| :: entries[i].recordId != entries[j].recordId
  }

  /** With distinct ids, the record with entry i's id is entry i. */
  lemma PositionOfDistinct(entries: seq<Entry>, i: nat)
    requires DistinctIds(entries) && i < |entries|
    ensures PositionOf(entries, entries[i].recordId) == Some(i)
  {
    var p := PositionOf(entries, entries[i].recordId);
    assert p.Some?;
    assert !(p.value < i) && !(p.value > i);
  }

  /** The tracking-entry records as the service stores them. */
  class EntryStore {
    var entries: seq<Entry>

    ghost predicate Valid()
      reads this
    {
      DistinctIds(entries)
    }

    constructor(initial: seq<Entry>)
      requires DistinctIds(initial)
      ensures Valid() && entries == initial
    {
      entries := initial;
    }

    /** `update(id, { status })`: the record with that id gets the status; nothing else changes. */
    method PatchStatus(id: string, status: Status)
      requires Valid()
      modifies this
      ensures Valid()
      ensures entries == match PositionOf(old(entries), id)
                         case None => old(entries)
                         case Some(k) => old(entries)[k := WithStatus(old(entries)[k], status)]
    {
      var k := 0;
      while k < |entries| && entries[k].recordId != id
        invariant 0 <= k <= |entries|
        invariant forall j | 0 <= j < k :: entries[j].recordId != id
      {
        k := k + 1;
      }
      if k < |entries| {
        assert PositionOf(entries, id) == Some(k) by {
          var p := PositionOf(entries, id);
          assert p.Some? && !(p.value < k) && !(p.value > k);
        }
        entries := entries[k := WithStatus(entries[k], status)];
      }
    }

    /**
     * `handleQuickLog`: look the habit up in the selected day's buckets; patch
     * the first entry found, or create a new one with the id the store assigns.
     * `ok` is whether that update or create call succeeds: a failing call
     * throws past the `finally`, so nothing is stored and `fetchAll` is skipped.
     */
    method QuickLog(habit: Habit, status: Status, selected: Day, clock: string, newId: string, createdAt: string, ok: bool)
      requires Valid()
      requires forall e | e in entries :: e.recordId != newId
      modifies this
      ensures Valid()
      ensures ok ==> entries == Upsert(old(entries), habit, status, selected, clock, newId, createdAt)
      ensures !ok ==> entries == old(entries)
    {
      var idx := BuildIndex(entries);
      var todayTracking := DayBuckets(idx, DayKey(selected));
      var existing := if habit.recordId in todayTracking then todayTracking[habit.recordId] else [];
      assert existing == Bucket(idx, DayKey(selected), habit.recordId);
      MatchingHead(entries, DayKey(selected), habit.recordId);
      if !ok {
        return;
      }
      if |existing| > 0 {
        var i := FirstWithKey(entries, DayKey(selected), habit.recordId).value;
        PositionOfDistinct(entries, i);
        PatchStatus(existing[0].recordId, status);
      } else {
        var e := NewEntry(habit, status, selected, clock, newId, createdAt);
        entries := entries + [e];
      }
    }
  }
}
