/**
 * Lookup resolution (src/lib/enrich.ts): a reference field holds a habit's
 * record URL; resolving it gives a display text taken from the referenced
 * habit's fields, and degrades to the empty text whenever the reference
 * cannot be followed.
 */
module Enrich {
  import opened Seqs
  import opened Strings
  import opened AppTypes
  import opened RecordUrls

  const NameField: string := "gewohnheit_name"

  /** `r.fields[name]` of a habit: absent for a missing field or a name the habit does not have. */
  function HabitField(h: Habit, name: string): Option<Scalar>
  {
    var f := h.fields;
    if name == "gewohnheit_name" then
      (if f.gewohnheitName.Some? then Some(Text(f.gewohnheitName.value)) else None)
    else if name == "beschreibung" then
      (if f.beschreibung.Some? then Some(Text(f.beschreibung.value)) else None)
    else if name == "kategorie" then
      (if f.kategorie.Some? then Some(Text(KategorieKey(f.kategorie.value))) else None)
    else if name == "ziel_haeufigkeit" then
      (if f.zielHaeufigkeit.Some? then Some(Text(ZielHaeufigkeitKey(f.zielHaeufigkeit.value))) else None)
    else if name == "startdatum" then
      (if f.startdatum.Some? then Some(Text(f.startdatum.value)) else None)
    else if name == "aktiv" then
      (if f.aktiv.Some? then Some(Flag(f.aktiv.value)) else None)
    else None
  }

  /** `String(v ?? '')`. */
  function FieldText(v: Option<Scalar>): string
  {
    match v
    case None => ""
    case Some(s) => ScalarString(s)
  }

  /** The display text of a habit for the given field names: their texts joined by spaces, trimmed. */
  function Display(h: Habit, names: seq<string>): (r: string)
    ensures IsTrimmed(r)
  {
    Trim(Join(" ", seq(|names|, i requires 0 <= i < |names| => FieldText(HabitField(h, names[i])))))
  }

  /** With two field names, the display text is their texts joined by one space, then trimmed. */
  lemma DisplayTwo(h: Habit, a: string, b: string)
    ensures Display(h, [a, b]) == Trim(FieldText(HabitField(h, a)) + " " + FieldText(HabitField(h, b)))
  {
    var parts := seq(2, i requires 0 <= i < 2 => FieldText(HabitField(h, [a, b][i])));
    assert parts == [FieldText(HabitField(h, a)), FieldText(HabitField(h, b))];
    assert parts[1..] == [FieldText(HabitField(h, b))];
  }

  /**
   * `resolveDisplay`: the display text of the habit the URL refers to; the
   * empty text for an absent or empty URL, a URL with no record id, or an id
   * the map does not hold.
   */
  function ResolveDisplay(url: Option<string>, m: map<string, Habit>, names: seq<string>): (r: string)
    ensures IsTrimmed(r)
    ensures url.None? || url == Some("") ==> r == ""
    ensures ExtractRecordId(url).None? ==> r == ""
    ensures ExtractRecordId(url).Some? && ExtractRecordId(url).value !in m ==> r == ""
    ensures ExtractRecordId(url).Some? && ExtractRecordId(url).value in m ==>
              r == Display(m[ExtractRecordId(url).value], names)
  {
    if url.None? || url.value == "" then ""
    else
      match ExtractRecordId(url)
      case None => ""
      case Some(id) => if id in m then Display(m[id], names) else ""
  }

  /** With the name field alone, the display text of a habit is its trimmed name, or empty when it has none. */
  lemma DisplayName(h: Habit)
    ensures Display(h, [NameField]) == if h.fields.gewohnheitName.Some? then Trim(h.fields.gewohnheitName.value) else ""
  {
    var parts := seq(1, i requires 0 <= i < 1 => FieldText(HabitField(h, [NameField][i])));
    assert parts == [FieldText(HabitField(h, NameField))];
  }

  /** A URL created for a habit resolves, through a map holding that habit, to the habit's display text. */
  lemma ResolveCreatedUrl(appId: string, m: map<string, Habit>, recordId: string, names: seq<string>)
    requires IsRecordId(recordId) && recordId in m
    ensures ResolveDisplay(Some(CreateRecordUrl(appId, recordId)), m, names) == Display(m[recordId], names)
  {
    RoundTrip(appId, recordId);
  }

  /** An entry or check-in together with the display name its reference resolves to. */
  datatype Enriched<R> = Enriched(record: R, displayName: string)

  /**
   * `enrichTrackingEintraege`: every entry, in order and unchanged, with the
   * name of the habit its `gewohnheit` reference resolves to.
   */
  function EnrichTrackingEintraege(entries: seq<Entry>, m: map<string, Habit>): (r: seq<Enriched<Entry>>)
    ensures |r| == |entries|
    ensures forall i | 0 <= i < |r| :: r[i].record == entries[i]
    ensures forall i | 0 <= i < |r| :: r[i].displayName == ResolveDisplay(entries[i].fields.gewohnheit, m, [NameField])
  {
    seq(|entries|, i requires 0 <= i < |entries| =>
      Enriched(entries[i], ResolveDisplay(entries[i].fields.gewohnheit, m, [NameField])))
  }

  /**
   * `enrichTaeglicherCheckIn`: every check-in, in order and unchanged, with
   * the name of the habit its `erledigte_gewohnheiten` reference resolves to.
   */
  function EnrichTaeglicherCheckIn(checkIns: seq<CheckIn>, m: map<string, Habit>): (r: seq<Enriched<CheckIn>>)
    ensures |r| == |checkIns|
    ensures forall i | 0 <= i < |r| :: r[i].record == checkIns[i]
    ensures forall i | 0 <= i < |r| :: r[i].displayName == ResolveDisplay(checkIns[i].fields.erledigteGewohnheiten, m, [NameField])
  {
    seq(|checkIns|, i requires 0 <= i < |checkIns| =>
      Enriched(checkIns[i], ResolveDisplay(checkIns[i].fields.erledigteGewohnheiten, m, [NameField])))
  }

  /** Dropping the names gives back the original list: enriching adds the name and changes nothing else. */
  lemma EnrichOnlyAddsName(entries: seq<Entry>, checkIns: seq<CheckIn>, m: map<string, Habit>)
    ensures var r := EnrichTrackingEintraege(entries, m);
            seq(|r|, i requires 0 <= i < |r| => r[i].record) == entries
    ensures var r := EnrichTaeglicherCheckIn(checkIns, m);
            seq(|r|, i requires 0 <= i < |r| => r[i].record) == checkIns
  {
  }

  /**
   * The name an enriched entry shows is the referenced habit's trimmed name
   * when the map holds it, and empty otherwise.
   */
  lemma EnrichedEntryName(e: Entry, m: map<string, Habit>)
    ensures var id := ExtractRecordId(e.fields.gewohnheit);
            ResolveDisplay(e.fields.gewohnheit, m, [NameField])
            == if id.Some? && id.value in m && m[id.value].fields.gewohnheitName.Some?
               then Trim(m[id.value].fields.gewohnheitName.value) else ""
  {
    var id := ExtractRecordId(e.fields.gewohnheit);
    if id.Some? && id.value in m {
      DisplayName(m[id.value]);
    }
  }
}
