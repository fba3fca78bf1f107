# Habit tracker: the dashboard's aggregation and lookup layer in Dafny

This project models the part of a habit-tracking web application that
computes something: everything else is rendering and calls to a REST service.
The application keeps three collections of records: habits (*Gewohnheiten*),
tracking entries (*Tracking-Einträge*) and daily check-ins (*Täglicher
Check-in*). The model covers the following:

- **Reference tokens** (`RecordUrls`). A lookup field holds the URL of the
  referenced record, and the record id is the trailing run of 24 hexadecimal
  digits. `ExtractRecordId` reads the id and `CreateRecordUrl` builds the URL.
- **The dashboard index** (`TrackingIndex`). Entries are bucketed by date key
  and habit id, keeping their array order. It is built by the imperative
  `BuildIndex` loop. The first entry of a bucket is what a day cell shows.
- **Dashboard figures** (`DashboardStats`):
  - active habits (default-active);
  - the per-habit streak, from the `while (true)` walk back from today;
  - the largest streak;
  - the number of habits done on the selected day, and the number of done entries;
  - the average rating in tenths;
  - the recent-entries slice.
- **Quick log** (`QuickLog`). An in-memory entry store (`EntryStore`, a class
  over `seq<Entry>`) either patches the status of the first entry in the
  (selected day, habit) bucket or appends one new entry. The pure `Upsert`
  specifies the method.
- **Lookup resolution** (`Enrich`). `resolveDisplay` and the two `enrich*`
  mappers.
- **The data hook** (`DashboardData`):
  - the id-to-habit map, where a later duplicate wins;
  - the `loading`/`error`/lists state of `fetchAll` as a class, with the
    fetch outcome as a parameter.
- **List pages** (`ListPages`, plus one module per page). These cover the
  search filter over field values, the local list update after a delete, the
  habit-name column, the empty case of date formatting and the habits page's
  active column.

Dates are integers in a bounded calendar `[0, 10^10)`. A day's key
(`Calendar.DayKey`, standing for the `yyyy-MM-dd` text) is its 10-digit
zero-padded decimal form. It has length 10 and is injective, which is all the
dashboard relies on. The streak loop walks back to day 0 at most, since
earlier days have no key and so no entries. "Today" and "the selected day" are
parameters.

The streak counts every consecutive done day ending today: with done entries
on the three days before today and none on the day before them, logging
"done" today gives a streak of 4.
`QuickLog.QuickLogDoneExtendsStreak` proves that the streak after such a log
is one plus yesterday's streak.

## Model

| member | source | states |
|---|---|---|
| RecordUrls.ExtractRecordId | src/services/livingAppsService.ts:9-14 | no id for an absent or empty URL; a result is exactly the last 24 characters and all of them are hex digits; any input of 24 or more characters whose tail is all hex yields that tail |
| RecordUrls.CreateRecordUrl | src/services/livingAppsService.ts:16-18 | the URL is the fixed REST prefix, then the app id, then `/records/`, then the record id, with nothing else |
| RecordUrls.RoundTrip | src/services/livingAppsService.ts:9-18 | extracting the id of a URL created for a 24-hex id gives back that id, for every app id |
| RecordUrls.ExtractIgnoresPrefix | src/services/livingAppsService.ts:12-13 | only the last 24 characters matter; any prefix, hex or not, is ignored |
| RecordUrls.ShortHasNoId | src/services/livingAppsService.ts:12-13 | inputs shorter than 24 characters have no id |
| RecordUrls.NonHexTailHasNoId | src/services/livingAppsService.ts:12-13 | a non-hex character among the last 24 means no id |
| RecordUrls.UpperCaseIdKept | src/services/livingAppsService.ts:12-13 | an id written with upper-case hex digits, after any prefix, is extracted exactly as written (no normalisation) |
| Calendar.DayKeyInjective | src/pages/DashboardOverview.tsx:89 | two days have the same date key exactly when they are the same day |
| Calendar.DatePart | src/pages/DashboardOverview.tsx:73 | `substring(0, 10)`: a prefix of at most 10 characters, exactly 10 when the text is long enough, the whole text when it is 10 characters or shorter |
| Calendar.DatePartOfTimestamp | src/pages/DashboardOverview.tsx:145 | the date part of a timestamp written for a day is that day's key, and the timestamp is not empty |
| TrackingIndex.EntryKey | src/pages/DashboardOverview.tsx:70-76 | an entry has a bucket exactly when its timestamp is present and non-empty and an id can be extracted from its habit reference; the bucket is (date part, extracted id) |
| TrackingIndex.Matching | src/pages/DashboardOverview.tsx:68-82 | the entries with a given key, as an order-preserving subsequence of all entries |
| TrackingIndex.PushKeepsIndex | src/pages/DashboardOverview.tsx:71-80 | adding one entry to an index of a list gives the index of the list extended by that entry; an unkeyed entry leaves the index as it was |
| TrackingIndex.BuildIndex | src/pages/DashboardOverview.tsx:68-82 | the nested map built with `set`/`push` holds, for every (day, habit), exactly the matching entries in array order, and holds no empty bucket |
| TrackingIndex.FirstWithKey | src/pages/DashboardOverview.tsx:79 | the position of the first entry with a key: it has the key and no earlier entry does; none when no entry has it |
| TrackingIndex.MatchingHead | src/pages/DashboardOverview.tsx:79 | a bucket is non-empty exactly when some entry has its key, and its head is the first such entry |
| TrackingIndex.DayBuckets | src/pages/DashboardOverview.tsx:91-94 | `todayTracking`: the empty map for a day without entries; each habit key present maps to that (day, habit) bucket, and a habit absent from it has an empty bucket |
| TrackingIndex.CellStatus | src/pages/DashboardOverview.tsx:257-258 | a cell's status is the status of the first entry of its (day, habit) bucket, or none when the bucket is empty |
| TrackingIndex.CellShowsFirstEntry | src/pages/DashboardOverview.tsx:257-258 | a (day, habit) cell shows the status of the first entry in array order with that key, or nothing; the same rule serves the 7-day grid at lines 398-400 |
| TrackingIndex.SkippedThenDone | src/pages/DashboardOverview.tsx:398-400 | with a skipped entry followed by a done entry for the same day and habit, the bucket keeps both in order and the cell shows "skipped" |
| DashboardStats.ActiveHabits | src/pages/DashboardOverview.tsx:84-87 | an order-preserving subsequence of the habits; a habit is kept exactly when `aktiv` is not exactly false, so a missing `aktiv` counts as active; each kept habit appears as many times as in the input |
| DashboardStats.RunIsRun | src/pages/DashboardOverview.tsx:100-109 | the streak is a run of done days ending today, and the day before it is not done; a day without a done entry today gives 0 |
| DashboardStats.RunOfStretch | src/pages/DashboardOverview.tsx:100-109 | a stretch of exactly N done days ending today, preceded by a day that is not done, is a streak of N |
| DashboardStats.RunAgrees | src/pages/DashboardOverview.tsx:100-109 | the streak depends only on which days up to today are done |
| DashboardStats.Streak | src/pages/DashboardOverview.tsx:99-109 | the `while (true)` walk from today through the index returns the streak of the habit over the entries the index was built from |
| DashboardStats.HabitStreaks | src/pages/DashboardOverview.tsx:97-113 | the streak map has one key per active habit id, holding that habit's streak; the selected day plays no part |
| DashboardStats.MaxStreak | src/pages/DashboardOverview.tsx:133 | at least every habit's streak, 0 with no habits, and attained by some habit otherwise |
| DashboardStats.MaxStreakOfMap | src/pages/DashboardOverview.tsx:133 | `Math.max(0, ...values)` of the streak map is the largest habit streak, and 0 for an empty map |
| DashboardStats.TodayDone | src/pages/DashboardOverview.tsx:125-131 | the counter loop counts the habit ids of the selected day's buckets that hold a done entry, at most the number of buckets |
| DashboardStats.DoneIdsAreDoneEntries | src/pages/DashboardOverview.tsx:91-94 | the counted ids are exactly the distinct habit ids referenced by done entries of that day |
| DashboardStats.DoneEntryCounts | src/pages/DashboardOverview.tsx:125-131 | one done entry on the day gives a count of at least one, whether or not its habit exists or is active |
| DashboardStats.EmptyDayCountsZero | src/pages/DashboardOverview.tsx:91-94 | a day on which no keyed entry falls counts 0 |
| DashboardStats.TotalDone | src/pages/DashboardOverview.tsx:121-123 | between 0 and the number of entries; 0 when none is done, all of them when all are done |
| DashboardStats.TotalDoneOne | src/pages/DashboardOverview.tsx:121-123 | one entry counts 1 when its status is done and 0 otherwise |
| DashboardStats.TotalDoneAppend | src/pages/DashboardOverview.tsx:121-123 | the count over two lists is the sum of their counts; with `TotalDoneOne` this fixes the count as the number of done entries |
| DashboardStats.RecentEntries | src/pages/DashboardOverview.tsx:469-471 | at most eight entries, the first ones of the ordered list, in that order |
| DashboardStats.NearestTenth | src/pages/DashboardOverview.tsx:138 | the whole number of tenths nearest to the mean, a half rounding up |
| DashboardStats.AvgRatingTenths | src/pages/DashboardOverview.tsx:135-139 | 0 without ratings; otherwise the mean of the present ratings in tenths, rounded half up |
| DashboardStats.AvgRatingPermutation | src/pages/DashboardOverview.tsx:135-139 | the average does not depend on the order of the entries |
| DashboardStats.AvgRatingBounds | src/pages/DashboardOverview.tsx:135-139 | with every present rating in [lo, hi], the average lies in [lo, hi] |
| DashboardStats.AvgRatingExample | src/pages/DashboardOverview.tsx:136-138 | any three entries rated 4, 5 and 3 average 4.0 |
| DashboardStats.UnratedNotCounted | src/pages/DashboardOverview.tsx:136-138 | an unrated entry next to a rated one is not counted: the average is that one rating |
| DashboardStats.ZeroRatingCounts | src/pages/DashboardOverview.tsx:136 | a rating of 0 is counted: ratings 0 and 5 give 2.5, where an unrated entry beside the 5 would give 5.0 |
| DashboardStats.ZeroRatingsLookUnrated | src/pages/DashboardOverview.tsx:203 | ratings that are all 0 give 0, which the stat card shows as a dash, as when nothing is rated |
| QuickLog.WithStatus | src/pages/DashboardOverview.tsx:147 | a status update changes the status and nothing else, so the entry stays in its bucket |
| QuickLog.NewEntry | src/pages/DashboardOverview.tsx:149-153 | the created entry refers to the habit's record URL, is dated on the selected day, has the given status and no rating or notes |
| QuickLog.Upsert | src/pages/DashboardOverview.tsx:141-159 | with a non-empty bucket, only the first bucketed entry's status changes and no entry is added; otherwise exactly one new entry is appended |
| QuickLog.NewEntryIsBucketed | src/pages/DashboardOverview.tsx:149-153 | for a 24-hex habit id, re-indexing places the new entry in the (selected day, habit) bucket |
| QuickLog.MatchingReplace | src/pages/DashboardOverview.tsx:147 | replacing an entry by one with the same key changes no other bucket |
| QuickLog.UpsertKeepsOtherBuckets | src/pages/DashboardOverview.tsx:141-159 | a quick log changes no bucket other than the (selected day, habit) one |
| QuickLog.UpsertFirst | src/pages/DashboardOverview.tsx:141-159 | afterwards the first entry of that bucket carries the logged status, and it is the same entry as before when the bucket existed |
| QuickLog.CellAfterQuickLog | src/pages/DashboardOverview.tsx:141-159 | after a quick log and a reload, the (selected day, habit) cell shows the logged status |
| QuickLog.QuickLogTwice | src/pages/DashboardOverview.tsx:141-159 | logging the same habit twice on one day adds at most one entry, and the cell shows the second status |
| QuickLog.QuickLogDoneExtendsStreak | src/pages/DashboardOverview.tsx:97-113 | logging "done" today makes the streak one plus yesterday's streak |
| QuickLog.DoneAfterQuickLog | src/pages/DashboardOverview.tsx:141-159 | logging "done" makes the selected day a done day for the habit |
| QuickLog.EarlierDaysUnchanged | src/pages/DashboardOverview.tsx:141-159 | a quick log does not change whether any earlier day is done |
| QuickLog.PositionOf | src/pages/DashboardOverview.tsx:147 | the first position holding a record id, or none when no record has it |
| QuickLog.PositionOfDistinct | src/pages/DashboardOverview.tsx:147 | with distinct ids, updating by an entry's id reaches that entry |
| QuickLog.EntryStore.constructor | src/pages/DashboardOverview.tsx:141-159 | the store starts with the given entries, which have distinct ids |
| QuickLog.EntryStore.PatchStatus | src/pages/DashboardOverview.tsx:147 | updating by id sets the status of the record with that id and changes nothing else; ids stay distinct |
| QuickLog.EntryStore.QuickLog | src/pages/DashboardOverview.tsx:141-159 | the handler, built from the index, the bucket lookup and the update or create call, leaves the store as `Upsert` of its old entries when the call succeeds, and unchanged when it throws |
| Enrich.Display | src/lib/enrich.ts:12 | the joined display text is trimmed |
| Enrich.ResolveDisplay | src/lib/enrich.ts:6-13 | empty for an absent or empty URL, an unextractable id, or an id missing from the map; otherwise the referenced habit's display text; always trimmed |
| Enrich.DisplayTwo | src/lib/enrich.ts:12 | with two field names, the text is the two field texts joined by one space and trimmed, a missing field giving the empty text |
| Enrich.DisplayName | src/lib/enrich.ts:12 | with the name field alone, the text is the trimmed name, or empty when the habit has none |
| Enrich.ResolveCreatedUrl | src/lib/enrich.ts:6-13 | a URL created for a habit in the map resolves to that habit's display text |
| Enrich.EnrichTrackingEintraege | src/lib/enrich.ts:33-41 | same length and order, each entry kept unchanged, with the resolved habit name added |
| Enrich.EnrichTaeglicherCheckIn | src/lib/enrich.ts:19-27 | same length and order, each check-in kept unchanged, with the resolved habit name added |
| Enrich.EnrichOnlyAddsName | src/lib/enrich.ts:19-41 | dropping the added name from the enriched list gives back the original list |
| Enrich.EnrichedEntryName | src/lib/enrich.ts:33-41 | an enriched entry's name is the referenced habit's trimmed name when the map holds it, otherwise empty |
| DashboardData.LastWithId | src/hooks/useDashboardData.ts:34 | the last habit in array order with an id; none exactly when no habit has the id |
| DashboardData.BuildHabitMap | src/hooks/useDashboardData.ts:32-36 | the keys are the habit ids; each value has its key as id and is the last habit with that id |
| DashboardData.DistinctIdsAllStored | src/hooks/useDashboardData.ts:32-36 | with distinct ids, every habit is stored under its own id |
| DashboardData.LaterDuplicateWins | src/hooks/useDashboardData.ts:34 | of two habits sharing an id, the later is stored |
| DashboardData.AsError | src/hooks/useDashboardData.ts:23-24 | a thrown `Error` is kept and anything else becomes the error "Fehler beim Laden der Daten" |
| DashboardData.LatestLists | src/hooks/useDashboardData.ts:12-28 | after a series of fetches, the lists are those of the latest successful one, or empty when none succeeded |
| DashboardData.FailureKeepsLists | src/hooks/useDashboardData.ts:23-24 | a failed fetch leaves the lists unchanged |
| DashboardData.LatestError | src/hooks/useDashboardData.ts:13-24 | the error reflects the latest fetch only: none after a success, none before any fetch |
| DashboardData.SuccessClearsError | src/hooks/useDashboardData.ts:13-22 | a successful fetch clears an earlier error and installs all three fetched lists |
| DashboardData.DashboardState.constructor | src/hooks/useDashboardData.ts:6-10 | the hook starts loading, with no error and empty lists |
| DashboardData.DashboardState.FetchAll | src/hooks/useDashboardData.ts:12-28 | clears the error; on success replaces all three lists, on failure keeps them and sets the error; either way loading ends; the state stays the one the fetch history determines |
| ListPages.Filtered | src/pages/TrackingEintraegePage.tsx:77-86 | an order-preserving subsequence; a record is kept exactly when the query is empty or some field value matches; each kept record appears as many times as in the input; an empty query keeps all (identically at GewohnheitenPage.tsx:65-74 and TaeglicherCheckInPage.tsx:75-84) |
| ListPages.SearchIgnoresCase | src/pages/TrackingEintraegePage.tsx:79-84 | the query's case does not change the outcome |
| ListPages.TextContainingQueryMatches | src/pages/TrackingEintraegePage.tsx:84 | a value containing the query matches, whatever the case of either |
| ListPages.AllMissingDropped | src/pages/TrackingEintraegePage.tsx:81 | null values never match, so with a non-empty query a record without values is dropped |
| ListPages.NullItemMatchesNull | src/pages/TrackingEintraegePage.tsx:82 | a null array element is matched by its string form "null" |
| ListPages.Without | src/pages/TrackingEintraegePage.tsx:67 | an order-preserving subsequence holding exactly the records with another id, each as often as before |
| ListPages.WithoutIdempotent | src/pages/TrackingEintraegePage.tsx:67 | deleting the same id twice is deleting it once |
| ListPages.WithoutAbsent | src/pages/TrackingEintraegePage.tsx:67 | deleting an id no record has changes nothing |
| ListPages.WithoutOne | src/pages/TrackingEintraegePage.tsx:67 | with distinct ids, deleting a listed record shortens the list by exactly one |
| ListPages.RemoveById | src/pages/TrackingEintraegePage.tsx:67 | the element-by-element removal computes the filtered list |
| ListPages.RecordList.constructor | src/pages/TrackingEintraegePage.tsx:27-48 | the page state once `loadData` has filled the list (the page itself starts empty and the load is not modelled): the loaded records and no delete target |
| ListPages.RecordList.HandleDelete | src/pages/TrackingEintraegePage.tsx:64-69 | no target or a failed service call changes nothing; otherwise the records with the target's id leave the list, the rest stay in order, and the target is cleared (identically at GewohnheitenPage.tsx:58-63 and TaeglicherCheckInPage.tsx:62-67) |
| ListPages.FindHabit | src/pages/TrackingEintraegePage.tsx:74 | `find`: the first habit with the id; none exactly when no habit has it |
| ListPages.HabitDisplayName | src/pages/TrackingEintraegePage.tsx:71-75 | a dash for an absent or empty URL or no extractable id; otherwise the name of the first listed habit with that id, or a dash when no habit has it or that habit has no name (identically at TaeglicherCheckInPage.tsx:69-73) |
| ListPages.PageNameAgreesWithDashboard | src/pages/TaeglicherCheckInPage.tsx:69-73 | with distinct ids and a trimmed non-empty name, the page's lookup and the dashboard's map-based resolution give the same name |
| ListPages.RepeatedIdsDisagree | src/pages/TrackingEintraegePage.tsx:74 | with repeated ids, a page names the first habit while the dashboard's map keeps the last |
| ListPages.FormatDate | src/pages/TrackingEintraegePage.tsx:21-24 | a dash for an absent or empty date; otherwise the rendered date, or the text itself when it cannot be parsed (identically at GewohnheitenPage.tsx:21-24 and TaeglicherCheckInPage.tsx:19-22) |
| TrackingEintraegePage.FilteredEntries | src/pages/TrackingEintraegePage.tsx:77-86 | the page's filtered list: an order-preserving subsequence of the entries that match, each as many times as in the input, everything for an empty query |
| TrackingEintraegePage.StatusSearchKeepsEntry | src/pages/TrackingEintraegePage.tsx:77-86 | an entry whose status key contains the query is kept |
| TrackingEintraegePage.HabitIdSearchKeepsEntry | src/pages/TrackingEintraegePage.tsx:77-86 | the habit field is a URL, so a query that is part of the referenced habit's id finds the entry |
| TrackingEintraegePage.CreatedEntryHabitColumn | src/pages/TrackingEintraegePage.tsx:71-75 | the habit column of an entry created for a named habit shows that habit's name |
| GewohnheitenPage.FilteredHabits | src/pages/GewohnheitenPage.tsx:65-74 | the page's filtered list: an order-preserving subsequence of the habits that match, each as many times as in the input, everything for an empty query |
| GewohnheitenPage.NameSearchKeepsHabit | src/pages/GewohnheitenPage.tsx:65-74 | a habit whose name contains the query, in any case, is kept |
| GewohnheitenPage.FlagSearchedAsText | src/pages/GewohnheitenPage.tsx:72 | the active flag is searched as "true"/"false": "TRUE" finds an active habit, "Ja" does not |
| GewohnheitenPage.AktivLabel | src/pages/GewohnheitenPage.tsx:124 | "Ja" exactly when `aktiv` is true, otherwise "Nein" |
| GewohnheitenPage.AktivLabelVersusDashboard | src/pages/GewohnheitenPage.tsx:124 | the page's label and the dashboard's default-active rule disagree exactly for habits without `aktiv` |
| TaeglicherCheckInPage.FilteredCheckIns | src/pages/TaeglicherCheckInPage.tsx:75-84 | the page's filtered list: an order-preserving subsequence of the check-ins that match, each as many times as in the input, everything for an empty query |
| TaeglicherCheckInPage.NotesSearchKeepsCheckIn | src/pages/TaeglicherCheckInPage.tsx:75-84 | a check-in whose notes contain the query is kept |
| TaeglicherCheckInPage.EmptyCheckInDropped | src/pages/TaeglicherCheckInPage.tsx:79 | with a non-empty query, a check-in with no field set is never kept |
| TaeglicherCheckInPage.HabitColumnFirstMatch | src/pages/TaeglicherCheckInPage.tsx:69-73 | the habit column shows the name of the first listed habit with the referenced id, even an empty name |

## Left out

- REST I/O is not modelled: the service's CRUD calls, `callApi` and `uploadFile`. The record store is an in-memory list. A delete's success and a fetch's outcome are parameters. A created record's id and creation time are parameters as well.
- `Promise.all` concurrency and overlapping reloads are not modelled: a fetch is one atomic success or failure.
- Calendar arithmetic from date-fns and the clock are not modelled. `new Date()`, `startOfDay`, `subDays`, time zones and `format` become integer days, the abstract key `DayKey`, and `clock` text for the time of day. The calendar is bounded, because a key of fixed length can only be injective over finitely many days.
- DashboardStats.AvgRatingTenths: works over exact integers in tenths with integer ratings. It does not model IEEE floating point in `Math.round(sum / n * 10) / 10`, where binary rounding of the quotient can differ at exact halves.
- DashboardStats.RecentEntries: takes the entries already ordered. The `localeCompare` sort on timestamps is locale-dependent collation and is not modelled.
- `toLowerCase` and `trim` are modelled for ASCII letters and the ECMAScript white-space set only. Unicode case mapping is not modelled.
- `lookupKey` and `displayLookup` (src/lib/formatters) are not part of this model. A status is a typed value and `lookupKey` is taken as the identity on it. A field value that arrives as a `{label}` object is covered by the search model (`FieldValue.Labelled`), but the typed records here never produce one.
- ListPages.FormatDate: parsing and `dd.MM.yyyy` formatting are a parameter `render`. Only the dash for an absent or empty date and the fall-back to the raw text are stated.
- The search model lists a record's field values in declaration order. `Object.values` order is not modelled; a match does not depend on it.
- JSX rendering, dialogs, routing, icon and colour tables, the 7-day grid's layout and the types-only files are not modelled, because they carry no logic.
- `setQuickLogging` and the other UI flags of the dashboard, and `loadData` on the list pages, are not modelled.
