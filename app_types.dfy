/**
 * The record shapes of the three collections (daily check-ins, tracking
 * entries, habits) and the fixed application ids. Optional fields are
 * `Option`s; a reference field holds a record URL as text.
 */
module AppTypes {
  import opened Seqs
  import opened Strings

  /** The status of a tracking entry. */
  datatype Status = Erledigt | Uebersprungen | Teilweise

  function StatusKey(s: Status): string
  {
    match s
    case Erledigt => "erledigt"
    case Uebersprungen => "uebersprungen"
    case Teilweise => "teilweise"
  }

  datatype Kategorie =
    | Gesundheit | Fitness | Ernaehrung | Produktivitaet | PersoenlicheEntwicklung
    | Soziales | Finanzen | Kreativitaet | Sonstiges

  function KategorieKey(k: Kategorie): string
  {
    match k
    case Gesundheit => "gesundheit"
    case Fitness => "fitness"
    case Ernaehrung => "ernaehrung"
    case Produktivitaet => "produktivitaet"
    case PersoenlicheEntwicklung => "persoenliche_entwicklung"
    case Soziales => "soziales"
    case Finanzen => "finanzen"
    case Kreativitaet => "kreativitaet"
    case Sonstiges => "sonstiges"
  }

  datatype ZielHaeufigkeit = Taeglich | MehrmalsWoche | Woechentlich | MehrmalsMonat | Monatlich

  function ZielHaeufigkeitKey(z: ZielHaeufigkeit): string
  {
    match z
    case Taeglich => "taeglich"
    case MehrmalsWoche => "mehrmals_woche"
    case Woechentlich => "woechentlich"
    case MehrmalsMonat => "mehrmals_monat"
    case Monatlich => "monatlich"
  }

  /** A stored record: its id, timestamps and the collection-specific fields. */
  datatype Record<F> = Record(recordId: string, createdat: string, updatedat: Option<string>, fields: F)

  datatype HabitFields = HabitFields(
    gewohnheitName: Option<string>,
    beschreibung: Option<string>,
    kategorie: Option<Kategorie>,
    zielHaeufigkeit: Option<ZielHaeufigkeit>,
    startdatum: Option<string>,
    aktiv: Option<bool>)

  datatype TrackingFields = TrackingFields(
    gewohnheit: Option<string>,     // reference to a habit record (its URL)
    datumUhrzeit: Option<string>,   // "yyyy-MM-dd..." timestamp
    status: Option<Status>,
    bewertung: Option<int>,
    notizen: Option<string>)

  datatype CheckInFields = CheckInFields(
    checkinDatum: Option<string>,
    erledigteGewohnheiten: Option<string>,  // reference to a habit record (its URL)
    tagesnotizen: Option<string>)

  type Habit = Record<HabitFields>
  type Entry = Record<TrackingFields>
  type CheckIn = Record<CheckInFields>

  /** The ids of the given habits. */
  function HabitIds(habits: seq<Habit>): set<string>
  {
    set h | h in habits :: h.recordId
  }

  const GewohnheitenAppId: string := "699d82a9f2a4cf5dbf7a58d8"

  /** A scalar as JavaScript stores it: text, a number or a boolean. */
  datatype Scalar = Text(text: string) | Number(n: int) | Flag(b: bool)

  /** `String(v)` of a scalar. */
  function ScalarString(v: Scalar): string
  {
    match v
    case Text(t) => t
    case Number(n) => IntToString(n)
    case Flag(b) => if b then "true" else "false"
  }

  /** An element of an array-valued field. */
  datatype Item = NullItem | ScalarItem(scalar: Scalar) | LabelItem(caption: string)

  /** A field value as `Object.values(record.fields)` yields it. */
  datatype FieldValue = Missing | Plain(scalar: Scalar) | Labelled(caption: string) | Items(items: seq<Item>)

  function OptText(o: Option<string>): FieldValue
  {
    match o
    case None => Missing
    case Some(t) => Plain(Text(t))
  }
}
