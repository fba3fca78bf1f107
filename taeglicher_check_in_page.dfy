/**
 * The daily check-in list page (src/pages/TaeglicherCheckInPage.tsx): how a
 * check-in's fields take part in the search, and the habit column.
 */
module TaeglicherCheckInPage {
  import opened Seqs
  import opened Strings
  import opened AppTypes
  import opened RecordUrls
  import opened ListPages

  /** `Object.values(r.fields)` of a check-in. */
  function CheckInValues(f: CheckInFields): seq<FieldValue>
  {
    [OptText(f.checkinDatum), OptText(f.erledigteGewohnheiten), OptText(f.tagesnotizen)]
  }

  /** The page's `filtered` list. */
  function FilteredCheckIns(records: seq<CheckIn>, search: string): (r: seq<CheckIn>)
    ensures IsSubseq(r, records)
    ensures search == "" ==> r == records
    ensures forall c :: c in r <==> c in records && RecordMatches(CheckInValues(c.fields), search)
    ensures forall c: CheckIn | RecordMatches(CheckInValues(c.fields), search) :: multiset(r)[c] == multiset(records)[c]
  {
    Filtered(records, search, CheckInValues)
  }

  /** A check-in whose notes contain the query, in any case, is kept. */
  lemma NotesSearchKeepsCheckIn(records: seq<CheckIn>, c: CheckIn, search: string)
    requires c in records && c.fields.tagesnotizen.Some?
    requires Contains(c.fields.tagesnotizen.value, search)
    ensures c in FilteredCheckIns(records, search)
  {
    LowerKeepsContains(c.fields.tagesnotizen.value, search);
    assert ValueMatches(CheckInValues(c.fields)[2], Lower(search));
  }

  /** With a non-empty query, a check-in with no fields set is never kept. */
  lemma EmptyCheckInDropped(records: seq<CheckIn>, c: CheckIn, search: string)
    requires search != ""
    requires c.fields == CheckInFields(None, None, None)
    ensures c !in FilteredCheckIns(records, search)
  {
    AllMissingDropped(CheckInValues(c.fields), search);
  }

  /**
   * The habit column names the first listed habit whose id the reference
   * carries; a habit with an empty name shows as empty, not as a dash.
   */
  lemma HabitColumnFirstMatch(list: seq<Habit>, c: CheckIn, i: nat)
    requires i < |list| && c.fields.erledigteGewohnheiten.Some? && c.fields.erledigteGewohnheiten.value != ""
    requires ExtractRecordId(c.fields.erledigteGewohnheiten) == Some(list[i].recordId)
    requires forall j | 0 <= j < i :: list[j].recordId != list[i].recordId
    requires list[i].fields.gewohnheitName.Some?
    ensures HabitDisplayName(list, c.fields.erledigteGewohnheiten) == list[i].fields.gewohnheitName.value
  {
    var f := FindHabit(list, list[i].recordId);
    assert f.Some?;
    var k :| 0 <= k < |list| && list[k] == f.value && f.value.recordId == list[i].recordId
             && forall j | 0 <= j < k :: list[j].recordId != list[i].recordId;
    assert !(k < i) && !(k > i);
  }
}
