/**
 * What the three list pages (habits, tracking entries, daily check-ins)
 * share: the search filter over a record's field values, the local list
 * update after a delete, the habit-name lookup for reference columns and the
 * empty case of date formatting. Each page supplies how its fields are
 * listed as values.
 */
module ListPages {
  import opened Seqs
  import opened Strings
  import opened AppTypes
  import opened RecordUrls
  import DashboardData
  import Enrich

  /** `String(x).toLowerCase().includes(s)`, `s` being the lower-cased query. */
  predicate TextMatches(text: string, s: string)
  {
    Contains(Lower(text), s)
  }

  /** An array element: by its label when it has one, otherwise by its string form (`null` included). */
  predicate ItemMatches(item: Item, s: string)
  {
    match item
    case NullItem => TextMatches("null", s)
    case ScalarItem(v) => TextMatches(ScalarString(v), s)
    case LabelItem(c) => TextMatches(c, s)
  }

  /** A field value: never when absent; a `{label}` object by its label; an array by any element. */
  predicate ValueMatches(v: FieldValue, s: string)
  {
    match v
    case Missing => false
    case Plain(x) => TextMatches(ScalarString(x), s)
    case Labelled(c) => TextMatches(c, s)
    case Items(items) => exists i | 0 <= i < |items| :: ItemMatches(items[i], s)
  }

  /** The search predicate: an empty query keeps the record, otherwise some value must match. */
  predicate RecordMatches(values: seq<FieldValue>, search: string)
  {
    search == "" || exists i | 0 <= i < |values| :: ValueMatches(values[i], Lower(search))
  }

  /**
   * `filtered`: the records, in order, whose field values (as `values` lists
   * them) match the query.
   */
  function Filtered<F(==,!new)>(records: seq<Record<F>>, search: string, values: F -> seq<FieldValue>)
    : (r: seq<Record<F>>)
    ensures IsSubseq(r, records)
    ensures forall x :: x in r <==> x in records && RecordMatches(values(x.fields), search)
    ensures forall x: Record<F> | RecordMatches(values(x.fields), search) :: multiset(r)[x] == multiset(records)[x]
    ensures search == "" ==> r == records
  {
    Filter(records, (x: Record<F>) => RecordMatches(values(x.fields), search))
  }

  /** The query's case does not matter. */
  lemma SearchIgnoresCase(values: seq<FieldValue>, search: string)
    ensures RecordMatches(values, search) <==> RecordMatches(values, Lower(search))
  {
    LowerIdempotent(search);
    assert |Lower(search)| == |search|;
  }

  /** A value whose text contains the query, in any case, is matched. */
  lemma TextContainingQueryMatches(text: string, search: string)
    requires Contains(text, search)
    ensures ValueMatches(Plain(Text(text)), Lower(search))
  {
    LowerKeepsContains(text, search);
  }

  /** With a non-empty query, a record whose values are all absent is dropped. */
  lemma AllMissingDropped(values: seq<FieldValue>, search: string)
    requires search != ""
    requires forall i | 0 <= i < |values| :: values[i] == Missing
    ensures !RecordMatches(values, search)
  {
  }

  /** A null array element is matched by its string form: the query "nul" finds it. */
  lemma NullItemMatchesNull()
    ensures ValueMatches(Items([NullItem]), Lower("nul"))
  {
    assert Lower("nul") == "nul";
    assert Lower("null") == "null";
    assert OccursAt(Lower("null"), "nul", 0);
    assert ItemMatches([NullItem][0], "nul");
  }

  /** The records left after deleting the one with id `id`: all others, in order. */
  function Without<F(==,!new)>(records: seq<Record<F>>, id: string): (r: seq<Record<F>>)
    ensures IsSubseq(r, records)
    ensures forall x :: x in r <==> x in records && x.recordId != id
    ensures forall x: Record<F> | x.recordId != id :: multiset(r)[x] == multiset(records)[x]
  {
    Filter(records, (x: Record<F>) => x.recordId != id)
  }

  lemma WithoutAppend<F(!new)>(records: seq<Record<F>>, x: Record<F>, id: string)
    ensures Without(records + [x], id) == Without(records, id) + (if x.recordId != id then [x] else [])
  {
    assert (records + [x])[..|records|] == records;
  }

  lemma WithoutPrefix<F(!new)>(records: seq<Record<F>>, i: nat, id: string)
    requires i < |records|
    ensures Without(records[..i + 1], id)
            == Without(records[..i], id) + (if records[i].recordId != id then [records[i]] else [])
  {
    assert records[..i + 1] == records[..i] + [records[i]];
    WithoutAppend(records[..i], records[i], id);
  }

  /** Deleting twice is deleting once. */
  lemma WithoutIdempotent<F(!new)>(records: seq<Record<F>>, id: string)
    ensures Without(Without(records, id), id) == Without(records, id)
  {
  }

  /** Deleting an id no record has changes nothing. */
  lemma WithoutAbsent<F(!new)>(records: seq<Record<F>>, id: string)
    requires forall x | x in records :: x.recordId != id
    ensures Without(records, id) == records
  {
  }

  /** With distinct ids, deleting a listed record removes exactly one record. */
  lemma {:induction false} WithoutOne<F(!new)>(records: seq<Record<F>>, i: nat)
    requires i < |records|
    requires forall j, k | 0 <= j < k < |records| :: records[j].recordId != records[k].recordId
    ensures |Without(records, records[i].recordId)| == |records| - 1
    decreases |records|
  {
    var n := |records|;
    var id := records[i].recordId;
    var init, last := records[..n - 1], records[n - 1];
    assert records == init + [last];
    if i == n - 1 {
      WithoutAbsent(init, id);
    } else {
      WithoutOne(init, i);
    }
  }

  /** `prev.filter(r => r.record_id !== id)`, element by element. */
  method RemoveById<F(==,!new)>(all: seq<Record<F>>, id: string) returns (kept: seq<Record<F>>)
    ensures kept == Without(all, id)
  {
    kept := [];
    var i := 0;
    while i < |all|
      invariant 0 <= i <= |all|
      invariant kept == Without(all[..i], id)
    {
      WithoutPrefix(all, i, id);
      if all[i].recordId != id {
        kept := kept + [all[i]];
      }
      i := i + 1;
    }
    assert all[..i] == all;
  }

  /** A page's list state: its records and the record awaiting delete confirmation. */
  class RecordList<F(==,!new)> {
    var records: seq<Record<F>>
    var deleteTarget: Option<Record<F>>

    constructor(initial: seq<Record<F>>)
      ensures records == initial && deleteTarget.None?
    {
      records := initial;
      deleteTarget := None;
    }

    /**
     * `handleDelete`: without a target nothing happens; otherwise, once the
     * service has deleted the record (`deleted`), the records with its id
     * leave the list and the target is cleared. A failed service call
     * changes nothing.
     */
    method HandleDelete(deleted: bool)
      modifies this
      ensures old(deleteTarget).None? || !deleted ==>
                records == old(records) && deleteTarget == old(deleteTarget)
      ensures old(deleteTarget).Some? && deleted ==>
                records == Without(old(records), old(deleteTarget).value.recordId) && deleteTarget.None?
    {
      if deleteTarget.None? {
        return;
      }
      if !deleted {
        return;
      }
      var kept := RemoveById(records, deleteTarget.value.recordId);
      records := kept;
      deleteTarget := None;
    }
  }

  const Dash: string := "—"

  /** `list.find(r => r.record_id === id)`: the first habit with that id. */
  function FindHabit(list: seq<Habit>, id: string): (r: Option<Habit>)
    ensures r.Some? ==> exists i | 0 <= i < |list| ::
                          list[i] == r.value && r.value.recordId == id
                          && forall j | 0 <= j < i :: list[j].recordId != id
    ensures r.None? <==> forall h | h in list :: h.recordId != id
  {
    if list == [] then None
    else if list[0].recordId == id then Some(list[0])
    else
      var r := FindHabit(list[1..], id);
      assert r.Some? ==> exists i | 0 <= i < |list[1..]| ::
                           list[1..][i] == r.value && r.value.recordId == id
                           && forall j | 0 <= j < i :: list[1..][j].recordId != id;
      if r.Some? then
        var i :| 0 <= i < |list[1..]| && list[1..][i] == r.value && r.value.recordId == id
                 && forall j | 0 <= j < i :: list[1..][j].recordId != id;
        assert list[i + 1] == r.value && forall j | 0 <= j < i + 1 :: list[j].recordId != id;
        r
      else
        assert forall h | h in list :: h == list[0] || h in list[1..];
        r
  }

  /**
   * `getGewohnheitenDisplayName`: a dash for an absent or empty URL, for a URL
   * with no record id, for an id no habit has, or for a habit with no name;
   * otherwise the name of the first habit with that id, as stored.
   */
  function HabitDisplayName(list: seq<Habit>, url: Option<string>): (r: string)
    ensures url.None? || url == Some("") ==> r == Dash
    ensures ExtractRecordId(url).None? ==> r == Dash
    ensures r != Dash ==> exists h | h in list ::
              Some(h.recordId) == ExtractRecordId(url) && h.fields.gewohnheitName == Some(r)
    ensures var id := ExtractRecordId(url);
            id.Some? && FindHabit(list, id.value).Some? && FindHabit(list, id.value).value.fields.gewohnheitName.Some? ==>
              r == FindHabit(list, id.value).value.fields.gewohnheitName.value
    ensures var id := ExtractRecordId(url);
            id.Some? && (FindHabit(list, id.value).None? || FindHabit(list, id.value).value.fields.gewohnheitName.None?) ==>
              r == Dash
  {
    if url.None? || url.value == "" then Dash
    else
      match ExtractRecordId(url)
      case None => Dash
      case Some(id) =>
        match FindHabit(list, id)
        case None => Dash
        case Some(h) => if h.fields.gewohnheitName.Some? then h.fields.gewohnheitName.value else Dash
  }

  /**
   * With distinct habit ids, the list pages and the dashboard name a
   * reference the same way whenever the habit has a name that is trimmed
   * and not empty: the page's lookup and `resolveDisplay` through the habit
   * map agree.
   */
  lemma PageNameAgreesWithDashboard(list: seq<Habit>, m: map<string, Habit>, url: Option<string>)
    requires forall i, j | 0 <= i < j < |list| :: list[i].recordId != list[j].recordId
    requires m.Keys == HabitIds(list)
    requires forall k | k in m :: Some(m[k]) == DashboardData.LastWithId(list, k)
    requires var id := ExtractRecordId(url);
             id.Some? && id.value in m && m[id.value].fields.gewohnheitName.Some?
             && m[id.value].fields.gewohnheitName.value != ""
             && IsTrimmed(m[id.value].fields.gewohnheitName.value)
    ensures HabitDisplayName(list, url) == Enrich.ResolveDisplay(url, m, [Enrich.NameField])
  {
    var id := ExtractRecordId(url).value;
    var h := m[id];
    assert h in list && h.recordId == id by {
      var k := DashboardData.LastWithId(list, id);
      assert k == Some(h);
      var i :| 0 <= i < |list| && list[i] == k.value;
    }
    FindDistinct(list, h);
    Enrich.DisplayName(h);
    TrimKeepsTrimmed(h.fields.gewohnheitName.value);
  }

  /** With distinct ids, looking a listed habit up by its id finds that habit. */
  lemma FindDistinct(list: seq<Habit>, h: Habit)
    requires forall i, j | 0 <= i < j < |list| :: list[i].recordId != list[j].recordId
    requires h in list
    ensures FindHabit(list, h.recordId) == Some(h)
  {
    var f := FindHabit(list, h.recordId);
    var i :| 0 <= i < |list| && list[i] == f.value && f.value.recordId == h.recordId
             && forall j | 0 <= j < i :: list[j].recordId != h.recordId;
    var p :| 0 <= p < |list| && list[p] == h;
    assert !(p < i) && !(i < p);
  }

  /**
   * Where ids repeat, the two lookups part ways: a page names the first
   * habit with the id, the dashboard's map the last one.
   */
  lemma RepeatedIdsDisagree(first: Habit, second: Habit, url: string)
    requires first.recordId == second.recordId
    requires ExtractRecordId(Some(url)) == Some(first.recordId)
    requires first.fields.gewohnheitName == Some("Lesen") && second.fields.gewohnheitName == Some("Laufen")
    ensures HabitDisplayName([first, second], Some(url)) == "Lesen"
    ensures DashboardData.LastWithId([first, second], first.recordId) == Some(second)
  {
    DashboardData.LaterDuplicateWins(first, second);
  }

  /**
   * `formatDate`: a dash for an absent or empty date; otherwise the rendered
   * date, or the input itself when it cannot be parsed. `render` stands for
   * parsing and formatting, None where parsing throws.
   */
  function FormatDate(d: Option<string>, render: string -> Option<string>): (r: string)
    ensures d.None? || d == Some("") ==> r == Dash
    ensures d.Some? && d.value != "" && render(d.value).None? ==> r == d.value
    ensures d.Some? && d.value != "" && render(d.value).Some? ==> r == render(d.value).value
  {
    match d
    case None => Dash
    case Some(s) =>
      if s == "" then Dash
      else
        match render(s)
        case None => s
        case Some(t) => t
  }
}
