/**
 * The dashboard's index of tracking entries (src/pages/DashboardOverview.tsx,
 * `trackingByDateAndHabit`): date key -> habit id -> the entries of that day
 * for that habit, in their original order.
 */
module TrackingIndex {
  import opened Seqs
  import opened AppTypes
  import opened RecordUrls
  import opened Calendar

  /**
   * The bucket an entry belongs to: the date part of its timestamp and the id
   * in its habit reference. None when the timestamp is absent or empty, or no
   * id can be extracted; such entries are left out of the index.
   */
  function EntryKey(e: Entry): (k: Option<(string, string)>)
    ensures k.Some? <==>
              && e.fields.datumUhrzeit.Some? && e.fields.datumUhrzeit.value != ""
              && ExtractRecordId(e.fields.gewohnheit).Some?
    ensures k.Some? ==> k.value.0 == DatePart(e.fields.datumUhrzeit.value)
                        && Some(k.value.1) == ExtractRecordId(e.fields.gewohnheit)
  {
    match e.fields.datumUhrzeit
    case None => None
    case Some(dt) =>
      if dt == "" then None
      else
        match ExtractRecordId(e.fields.gewohnheit)
        case None => None
        case Some(id) => Some((DatePart(dt), id))
  }

  predicate HasKey(e: Entry, day: string, habitId: string)
  {
    EntryKey(e) == Some((day, habitId))
  }

  /** The entries keyed (day, habitId), in array order. */
  function Matching(entries: seq<Entry>, day: string, habitId: string): (r: seq<Entry>)
    ensures forall e :: e in r <==> e in entries && HasKey(e, day, habitId)
    ensures IsSubseq(r, entries)
  {
    if entries == [] then []
    else
      var init, last := entries[..|entries| - 1], entries[|entries| - 1];
      assert entries == init + [last];
      var rest := Matching(init, day, habitId);
      if HasKey(last, day, habitId) then
        assert (rest + [last])[..|rest|] == rest;
        rest + [last]
      else
        rest
  }

  lemma MatchingAppend(entries: seq<Entry>, e: Entry, day: string, habitId: string)
    ensures Matching(entries + [e], day, habitId)
            == Matching(entries, day, habitId) + (if HasKey(e, day, habitId) then [e] else [])
  {
    assert (entries + [e])[..|entries|] == entries;
  }

  type Index = map<string, map<string, seq<Entry>>>

  /** `map.get(day)?.get(habitId) ?? []`. */
  function Bucket(idx: Index, day: string, habitId: string): seq<Entry>
  {
    if day in idx && habitId in idx[day] then idx[day][habitId] else []
  }

  /** `map.get(day) ?? new Map()`: the habit buckets of one day. */
  function DayBuckets(idx: Index, day: string): (r: map<string, seq<Entry>>)
    ensures day !in idx ==> r == map[]
    ensures forall h | h in r :: r[h] == Bucket(idx, day, h)
    ensures forall h | h !in r :: Bucket(idx, day, h) == []
  {
    if day in idx then idx[day] else map[]
  }

  /**
   * `idx` is the index of `entries`: every bucket holds exactly the entries
   * with its key, in order, and a bucket exists only when it is non-empty.
   */
  ghost predicate IndexOf(idx: Index, entries: seq<Entry>)
  {
    && (forall day, habitId :: Bucket(idx, day, habitId) == Matching(entries, day, habitId))
    && NoEmptyBuckets(idx)
  }

  ghost predicate NoEmptyBuckets(idx: Index)
  {
    forall day, habitId | day in idx && habitId in idx[day] :: idx[day][habitId] != []
  }

  lemma PushNoEmptyBuckets(idx: Index, e: Entry)
    requires NoEmptyBuckets(idx)
    ensures NoEmptyBuckets(Push(idx, e))
  {
  }

  /** The index after pushing one more entry into its bucket (unchanged for an unkeyed entry). */
  function Push(idx: Index, e: Entry): Index
  {
    match EntryKey(e)
    case None => idx
    case Some((day, habitId)) => idx[day := DayBuckets(idx, day)[habitId := Bucket(idx, day, habitId) + [e]]]
  }

  /** Pushing an entry extends its own bucket by it and leaves every other bucket alone. */
  lemma PushBucket(idx: Index, e: Entry, day: string, habitId: string)
    ensures Bucket(Push(idx, e), day, habitId)
            == Bucket(idx, day, habitId) + (if HasKey(e, day, habitId) then [e] else [])
  {
    match EntryKey(e) {
      case None =>
      case Some((d, h)) =>
        if day == d && habitId == h {
          assert Bucket(Push(idx, e), day, habitId) == Bucket(idx, day, habitId) + [e];
        } else {
          assert Bucket(Push(idx, e), day, habitId) == Bucket(idx, day, habitId);
        }
    }
  }

  lemma {:induction false} PushKeepsIndex(idx: Index, entries: seq<Entry>, e: Entry)
    requires IndexOf(idx, entries)
    ensures IndexOf(Push(idx, e), entries + [e])
  {
    PushNoEmptyBuckets(idx, e);
    forall day, habitId
      ensures Bucket(Push(idx, e), day, habitId) == Matching(entries + [e], day, habitId)
    {
      PushBucket(idx, e, day, habitId);
      MatchingAppend(entries, e, day, habitId);
    }
  }

  /** Building `trackingByDateAndHabit` with `forEach`, `set` and `push`. */
  method BuildIndex(entries: seq<Entry>) returns (idx: Index)
    ensures IndexOf(idx, entries)
  {
    idx := map[];
    var i := 0;
    while i < |entries|
      invariant 0 <= i <= |entries|
      invariant IndexOf(idx, entries[..i])
    {
      var entry := entries[i];
      ghost var before := idx;
      var dt := entry.fields.datumUhrzeit;
      if dt.Some? && dt.value != "" {
        var gwId := ExtractRecordId(entry.fields.gewohnheit);
        if gwId.Some? {
          var dateStr := DatePart(dt.value);
          var byHabit := if dateStr in idx then idx[dateStr] else map[];
          var bucket := if gwId.value in byHabit then byHabit[gwId.value] else [];
          assert EntryKey(entry) == Some((dateStr, gwId.value));
          idx := idx[dateStr := byHabit[gwId.value := bucket + [entry]]];
        } else {
          assert EntryKey(entry).None?;
        }
      } else {
        assert EntryKey(entry).None?;
      }
      assert idx == Push(before, entry);
      PushPrefix(before, entries, i);
      i := i + 1;
    }
    assert entries[..i] == entries;
  }

  /** One step of the build: pushing the next entry indexes one more element of the list. */
  lemma PushPrefix(idx: Index, entries: seq<Entry>, i: nat)
    requires i < |entries|
    requires IndexOf(idx, entries[..i])
    ensures IndexOf(Push(idx, entries[i]), entries[..i + 1])
  {
    assert entries[..i + 1] == entries[..i] + [entries[i]];
    PushKeepsIndex(idx, entries[..i], entries[i]);
  }

  /** The position of the first entry keyed (day, habitId), if any. */
  function FirstWithKey(entries: seq<Entry>, day: string, habitId: string): (r: Option<nat>)
    ensures r.Some? ==> r.value < |entries| && HasKey(entries[r.value], day, habitId)
    ensures r.Some? ==> forall j :: 0 <= j < r.value ==> !HasKey(entries[j], day, habitId)
    ensures r.None? ==> forall j :: 0 <= j < |entries| ==> !HasKey(entries[j], day, habitId)
  {
    if entries == [] then None
    else
      var init := entries[..|entries| - 1];
      match FirstWithKey(init, day, habitId)
      case Some(i) => Some(i)
      case None =>
        if HasKey(entries[|entries| - 1], day, habitId) then Some(|entries| - 1) else None
  }

  /** The head of a bucket is the first entry in array order with that key. */
  lemma {:induction false} MatchingHead(entries: seq<Entry>, day: string, habitId: string)
    ensures Matching(entries, day, habitId) != [] <==> FirstWithKey(entries, day, habitId).Some?
    ensures Matching(entries, day, habitId) != [] ==>
              Matching(entries, day, habitId)[0] == entries[FirstWithKey(entries, day, habitId).value]
  {
    if entries != [] {
      var init := entries[..|entries| - 1];
      MatchingHead(init, day, habitId);
    }
  }

  /** The status shown in a (day, habit) cell: that of the bucket's first entry. */
  function CellStatus(idx: Index, day: string, habitId: string): (r: Option<Status>)
    ensures Bucket(idx, day, habitId) == [] ==> r.None?
    ensures Bucket(idx, day, habitId) != [] ==> r == Bucket(idx, day, habitId)[0].fields.status
  {
    var entries := Bucket(idx, day, habitId);
    if |entries| > 0 then entries[0].fields.status else None
  }

  /**
   * A cell shows the status of the first entry of the array with its key, and
   * nothing when no entry has that key; later entries for the same day and
   * habit never show.
   */
  lemma CellShowsFirstEntry(idx: Index, entries: seq<Entry>, day: string, habitId: string)
    requires IndexOf(idx, entries)
    ensures CellStatus(idx, day, habitId)
            == match FirstWithKey(entries, day, habitId)
               case None => None
               case Some(i) => entries[i].fields.status
  {
    MatchingHead(entries, day, habitId);
  }

  /**
   * Two entries for the same habit on the same day, skipped then done: the
   * bucket keeps both in that order and the cell shows "skipped".
   */
  lemma SkippedThenDone(idx: Index, skipped: Entry, done: Entry, day: string, habitId: string)
    requires HasKey(skipped, day, habitId) && HasKey(done, day, habitId)
    requires skipped.fields.status == Some(Uebersprungen) && done.fields.status == Some(Erledigt)
    requires IndexOf(idx, [skipped, done])
    ensures Bucket(idx, day, habitId) == [skipped, done]
    ensures CellStatus(idx, day, habitId) == Some(Uebersprungen)
  {
    MatchingAppend([skipped], done, day, habitId);
    MatchingAppend([], skipped, day, habitId);
    assert [skipped] == [] + [skipped];
    assert [skipped, done] == [skipped] + [done];
  }
}
