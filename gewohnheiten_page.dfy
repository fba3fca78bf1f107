/**
 * The habits list page (src/pages/GewohnheitenPage.tsx): how a habit's fields
 * take part in the search, and the "active" column.
 */
module GewohnheitenPage {
  import opened Seqs
  import opened Strings
  import opened AppTypes
  import opened ListPages
  import DashboardStats

  function KeyValue<K>(k: Option<K>, key: K -> string): FieldValue
  {
    match k
    case None => Missing
    case Some(v) => Plain(Text(key(v)))
  }

  function FlagValue(b: Option<bool>): FieldValue
  {
    match b
    case None => Missing
    case Some(x) => Plain(Flag(x))
  }

  /** `Object.values(r.fields)` of a habit. */
  function HabitValues(f: HabitFields): seq<FieldValue>
  {
    [ OptText(f.gewohnheitName), OptText(f.beschreibung), KeyValue(f.kategorie, KategorieKey),
      KeyValue(f.zielHaeufigkeit, ZielHaeufigkeitKey), OptText(f.startdatum), FlagValue(f.aktiv) ]
  }

  /** The page's `filtered` list. */
  function FilteredHabits(records: seq<Habit>, search: string): (r: seq<Habit>)
    ensures IsSubseq(r, records)
    ensures search == "" ==> r == records
    ensures forall h :: h in r <==> h in records && RecordMatches(HabitValues(h.fields), search)
    ensures forall h: Habit | RecordMatches(HabitValues(h.fields), search) :: multiset(r)[h] == multiset(records)[h]
  {
    Filtered(records, search, HabitValues)
  }

  /** A habit whose name contains the query, in any case, is kept. */
  lemma NameSearchKeepsHabit(records: seq<Habit>, h: Habit, search: string)
    requires h in records && h.fields.gewohnheitName.Some?
    requires Contains(h.fields.gewohnheitName.value, search)
    ensures h in FilteredHabits(records, search)
  {
    LowerKeepsContains(h.fields.gewohnheitName.value, search);
    assert ValueMatches(HabitValues(h.fields)[0], Lower(search));
  }

  /** The flag is searched by its string form: "TRUE" finds a habit marked active, "Ja" does not. */
  lemma FlagSearchedAsText(h: Habit)
    requires h.fields.aktiv == Some(true)
    ensures ValueMatches(HabitValues(h.fields)[5], Lower("TRUE"))
    ensures !ValueMatches(HabitValues(h.fields)[5], Lower("Ja"))
  {
    assert Lower("TRUE") == "true";
    assert Lower("true") == "true";
    assert OccursAt("true", "true", 0);
    assert Lower("Ja") == "ja";
    assert !Contains("true", "ja") by {
      forall i | 0 <= i <= 2 ensures !OccursAt("true", "ja", i) {
        assert "true"[i..i + 2][0] == "true"[i] != 'j';
      }
    }
  }

  /** The "active" column: "Ja" exactly when `aktiv` is true. */
  function AktivLabel(h: Habit): (r: string)
    ensures r == "Ja" <==> h.fields.aktiv == Some(true)
    ensures r == "Ja" || r == "Nein"
  {
    if h.fields.aktiv == Some(true) then "Ja" else "Nein"
  }

  /**
   * A habit with no `aktiv` field shows "Nein" on this page, yet the
   * dashboard counts it as active: the two rules disagree exactly there.
   */
  lemma AktivLabelVersusDashboard(h: Habit)
    ensures (AktivLabel(h) == "Ja") != DashboardStats.IsActive(h) <==> h.fields.aktiv.None?
  {
    assert "Nein" != "Ja";
    match h.fields.aktiv {
      case None =>
        assert AktivLabel(h) == "Nein" && DashboardStats.IsActive(h);
      case Some(b) =>
        assert DashboardStats.IsActive(h) == b;
    }
  }
}
