/**
 * The tracking-entries list page (src/pages/TrackingEintraegePage.tsx): how an
 * entry's fields take part in the search, and the habit column.
 */
module TrackingEintraegePage {
  import opened Seqs
  import opened Strings
  import opened AppTypes
  import opened RecordUrls
  import opened ListPages

  /** A status as its stored key. */
  function StatusValue(s: Option<Status>): FieldValue
  {
    match s
    case None => Missing
    case Some(st) => Plain(Text(StatusKey(st)))
  }

  /** A rating as the number it is. */
  function RatingValue(b: Option<int>): FieldValue
  {
    match b
    case None => Missing
    case Some(n) => Plain(Number(n))
  }

  /** `Object.values(r.fields)` of a tracking entry. */
  function EntryValues(f: TrackingFields): seq<FieldValue>
  {
    [OptText(f.gewohnheit), OptText(f.datumUhrzeit), StatusValue(f.status), RatingValue(f.bewertung), OptText(f.notizen)]
  }

  /** The page's `filtered` list. */
  function FilteredEntries(records: seq<Entry>, search: string): (r: seq<Entry>)
    ensures IsSubseq(r, records)
    ensures search == "" ==> r == records
    ensures forall e :: e in r <==> e in records && RecordMatches(EntryValues(e.fields), search)
    ensures forall e: Entry | RecordMatches(EntryValues(e.fields), search) :: multiset(r)[e] == multiset(records)[e]
  {
    Filtered(records, search, EntryValues)
  }

  /** An entry whose status key contains the query, in any case, is kept. */
  lemma StatusSearchKeepsEntry(records: seq<Entry>, e: Entry, search: string)
    requires e in records && e.fields.status.Some?
    requires Contains(StatusKey(e.fields.status.value), search)
    ensures e in FilteredEntries(records, search)
  {
    LowerKeepsContains(StatusKey(e.fields.status.value), search);
    assert ValueMatches(EntryValues(e.fields)[2], Lower(search));
  }

  /**
   * The habit column is a URL, so the query finds an entry by (part of) the
   * referenced habit's record id, not by the habit's name.
   */
  lemma HabitIdSearchKeepsEntry(records: seq<Entry>, e: Entry, habitId: string, search: string)
    requires e in records
    requires e.fields.gewohnheit == Some(CreateRecordUrl(GewohnheitenAppId, habitId))
    requires Contains(habitId, search)
    ensures e in FilteredEntries(records, search)
  {
    var i :| 0 <= i <= |habitId| - |search| && OccursAt(habitId, search, i);
    var url := CreateRecordUrl(GewohnheitenAppId, habitId);
    var prefix := UrlPrefix + GewohnheitenAppId + RecordsSegment;
    assert url == prefix + habitId;
    assert url[|prefix| + i..|prefix| + i + |search|] == habitId[i..i + |search|];
    assert OccursAt(url, search, |prefix| + i);
    LowerKeepsContains(url, search);
    assert ValueMatches(EntryValues(e.fields)[0], Lower(search));
  }

  /** The habit column of an entry a quick log created names the first listed habit with that id. */
  lemma CreatedEntryHabitColumn(list: seq<Habit>, e: Entry, h: Habit)
    requires IsRecordId(h.recordId) && h in list && h.fields.gewohnheitName.Some?
    requires forall g | g in list && g.recordId == h.recordId :: g == h
    requires e.fields.gewohnheit == Some(CreateRecordUrl(GewohnheitenAppId, h.recordId))
    ensures HabitDisplayName(list, e.fields.gewohnheit) == h.fields.gewohnheitName.value
  {
    RoundTrip(GewohnheitenAppId, h.recordId);
    var f := FindHabit(list, h.recordId);
    assert f.Some?;
  }
}
