/**
 * The dashboard's derived figures (src/pages/DashboardOverview.tsx): active
 * habits, per-habit streaks ending today, the number of habits done on the
 * selected day, the number of done entries and the average rating.
 */
module DashboardStats {
  import opened Seqs
  import opened AppTypes
  import opened Calendar
  import opened TrackingIndex

  /** Default-active: only an explicit `aktiv: false` makes a habit inactive. */
  predicate IsActive(h: Habit)
  {
    h.fields.aktiv != Some(false)
  }

  /**
   * `activeHabits`: the habits in their original order, without those whose
   * `aktiv` is exactly false; a habit with no `aktiv` field stays.
   */
  function ActiveHabits(habits: seq<Habit>): (r: seq<Habit>)
    ensures IsSubseq(r, habits)
    ensures forall h :: h in r <==> h in habits && h.fields.aktiv != Some(false)
    ensures forall h: Habit | h.fields.aktiv != Some(false) :: multiset(r)[h] == multiset(habits)[h]
    ensures forall h | h in habits && h.fields.aktiv.None? :: h in r
    ensures (forall h | h in habits :: h.fields.aktiv != Some(false)) ==> r == habits
  {
    Filter(habits, IsActive)
  }

  predicate IsDone(e: Entry)
  {
    e.fields.status == Some(Erledigt)
  }

  /** `entries.some(e => status === 'erledigt')`. */
  predicate AnyDone(entries: seq<Entry>)
  {
    exists e | e in entries :: IsDone(e)
  }

  /**
   * The length of the run of consecutive days ending at `today` on which
   * `done` holds. Days before 0 have no date key, so no run reaches them.
   */
  function RunLength(done: int -> bool, today: int): nat
    decreases today + 1
  {
    if today >= 0 && done(today) then 1 + RunLength(done, today - 1) else 0
  }

  /**
   * A run is a stretch of done days ending today, and the day before it is not
   * done (or lies before day 0); in particular it is 0 when today is not done.
   */
  lemma {:induction false} RunIsRun(done: int -> bool, today: int)
    ensures forall d | today - RunLength(done, today) < d <= today :: done(d)
    ensures today - RunLength(done, today) < 0 || !done(today - RunLength(done, today))
    decreases today + 1
  {
    if today >= 0 && done(today) {
      RunIsRun(done, today - 1);
    }
  }

  /** A stretch of exactly `n` done days ending today, preceded by a day not done, is a run of `n`. */
  lemma {:induction false} RunOfStretch(done: int -> bool, today: int, n: nat)
    requires n <= today + 1
    requires forall d | today - n < d <= today :: done(d)
    requires today - n < 0 || !done(today - n)
    ensures RunLength(done, today) == n
    decreases n
  {
    if n > 0 {
      assert today >= 0 && done(today);
      assert (today - 1) - (n - 1) == today - n;
      RunOfStretch(done, today - 1, n - 1);
    }
  }

  /** Two day predicates that agree up to today give the same run. */
  lemma {:induction false} RunAgrees(done1: int -> bool, done2: int -> bool, today: int)
    requires forall d | 0 <= d <= today :: done1(d) == done2(d)
    ensures RunLength(done1, today) == RunLength(done2, today)
    decreases today + 1
  {
    if today >= 0 && done1(today) {
      RunAgrees(done1, done2, today - 1);
    }
  }

  /** The days on which the habit's bucket holds a done entry. */
  function DoneDays(entries: seq<Entry>, habitId: string): int -> bool
  {
    d => InCalendar(d) && AnyDone(Matching(entries, DayKey(d), habitId))
  }

  /** The habit's streak: consecutive done days ending at `today`. */
  function StreakLen(entries: seq<Entry>, habitId: string, today: int): nat
  {
    RunLength(DoneDays(entries, habitId), today)
  }

  /**
   * One habit's streak, walking back from today one day at a time until a
   * day's bucket holds no done entry.
   */
  method Streak(idx: Index, ghost entries: seq<Entry>, habitId: string, today: Day) returns (streak: nat)
    requires IndexOf(idx, entries)
    ensures streak == StreakLen(entries, habitId, today)
  {
    ghost var done := DoneDays(entries, habitId);
    streak := 0;
    var checkDate: int := today;
    while true
      invariant checkDate == today - streak
      invariant RunLength(done, today) == streak + RunLength(done, checkDate)
      decreases checkDate + 1
    {
      var bucket := if InCalendar(checkDate) then Bucket(idx, DayKey(checkDate), habitId) else [];
      BucketShowsDone(idx, entries, habitId, checkDate);
      if !exists e | e in bucket :: IsDone(e) {
        break;
      }
      streak := streak + 1;
      checkDate := checkDate - 1;
    }
  }

  /** A day's bucket in the index holds a done entry exactly when the day is a done day. */
  lemma BucketShowsDone(idx: Index, entries: seq<Entry>, habitId: string, d: int)
    requires IndexOf(idx, entries)
    ensures (InCalendar(d) && exists e | e in Bucket(idx, DayKey(d), habitId) :: IsDone(e))
            == DoneDays(entries, habitId)(d)
  {
    if InCalendar(d) {
      assert Bucket(idx, DayKey(d), habitId) == Matching(entries, DayKey(d), habitId);
    }
  }

  /** `habitStreaks`: each active habit's id mapped to its streak. */
  method HabitStreaks(idx: Index, ghost entries: seq<Entry>, active: seq<Habit>, today: Day)
    returns (streaks: map<string, nat>)
    requires IndexOf(idx, entries)
    ensures streaks.Keys == HabitIds(active)
    ensures forall id | id in streaks :: streaks[id] == StreakLen(entries, id, today)
  {
    streaks := map[];
    var i := 0;
    while i < |active|
      invariant 0 <= i <= |active|
      invariant streaks.Keys == HabitIds(active[..i])
      invariant forall id | id in streaks :: streaks[id] == StreakLen(entries, id, today)
    {
      var habit := active[i];
      var streak := Streak(idx, entries, habit.recordId, today);
      streaks := streaks[habit.recordId := streak];
      assert active[..i + 1] == active[..i] + [habit];
      i := i + 1;
    }
    assert active[..i] == active;
  }

  /** `Math.max(0, ...streaks)`, taken over the habits' streaks. */
  function MaxStreak(entries: seq<Entry>, habits: seq<Habit>, today: int): (r: nat)
    ensures forall h | h in habits :: StreakLen(entries, h.recordId, today) <= r
    ensures habits == [] ==> r == 0
    ensures habits != [] ==> exists h | h in habits :: r == StreakLen(entries, h.recordId, today)
  {
    if habits == [] then 0
    else
      var init, last := habits[..|habits| - 1], habits[|habits| - 1];
      assert habits == init + [last];
      var m := MaxStreak(entries, init, today);
      var s := StreakLen(entries, last.recordId, today);
      if m >= s then m else s
  }

  /**
   * The largest value in the streak map is the largest streak among the
   * habits it was built from, and 0 for an empty map.
   */
  lemma MaxStreakOfMap(streaks: map<string, nat>, entries: seq<Entry>, active: seq<Habit>, today: int)
    requires streaks.Keys == HabitIds(active)
    requires forall id | id in streaks :: streaks[id] == StreakLen(entries, id, today)
    ensures forall id | id in streaks :: streaks[id] <= MaxStreak(entries, active, today)
    ensures streaks == map[] ==> MaxStreak(entries, active, today) == 0
    ensures streaks != map[] ==> exists id | id in streaks :: streaks[id] == MaxStreak(entries, active, today)
  {
    var m := MaxStreak(entries, active, today);
    if active != [] {
      assert active[0].recordId in HabitIds(active);
    }
    if streaks != map[] {
      var h :| h in active && m == StreakLen(entries, h.recordId, today);
      assert h.recordId in streaks;
    }
  }

  /** The habit ids of a day whose bucket holds a done entry. */
  function DoneIds(todayTracking: map<string, seq<Entry>>): set<string>
  {
    set h | h in todayTracking && AnyDone(todayTracking[h])
  }

  /** The keys among `keys` whose bucket holds a done entry. */
  function DoneAmong(todayTracking: map<string, seq<Entry>>, keys: set<string>): set<string>
  {
    set h | h in keys && h in todayTracking && AnyDone(todayTracking[h])
  }

  lemma DoneAmongAdd(todayTracking: map<string, seq<Entry>>, keys: set<string>, h: string)
    requires h in todayTracking
    ensures DoneAmong(todayTracking, keys + {h})
            == DoneAmong(todayTracking, keys) + (if AnyDone(todayTracking[h]) then {h} else {})
  {
  }

  /** `todayDone`: count the habit buckets of the selected day that hold a done entry. */
  method TodayDone(todayTracking: map<string, seq<Entry>>) returns (count: nat)
    ensures count == |DoneIds(todayTracking)|
    ensures count <= |todayTracking|
  {
    count := 0;
    var remaining := todayTracking.Keys;
    ghost var seen: set<string> := {};
    while remaining != {}
      invariant remaining !! seen && remaining + seen == todayTracking.Keys
      invariant count == |DoneAmong(todayTracking, seen)|
      decreases remaining
    {
      var h :| h in remaining;
      DoneAmongAdd(todayTracking, seen, h);
      if exists e | e in todayTracking[h] :: IsDone(e) {
        count := count + 1;
      }
      remaining := remaining - {h};
      seen := seen + {h};
    }
    assert DoneAmong(todayTracking, seen) == DoneIds(todayTracking);
    SubsetCardinality(DoneIds(todayTracking), todayTracking.Keys);
  }

  /** The habit ids that some done entry of the given day refers to. */
  function DoneIdsOfEntries(entries: seq<Entry>, day: string): set<string>
  {
    set e | e in entries && IsDone(e) && EntryKey(e).Some? && EntryKey(e).value.0 == day :: EntryKey(e).value.1
  }

  /**
   * What `todayDone` counts, stated on the entries: the distinct habit ids
   * that a done entry of that day refers to, whether or not such a habit
   * exists or is active.
   */
  lemma DoneIdsAreDoneEntries(idx: Index, entries: seq<Entry>, day: string)
    requires IndexOf(idx, entries)
    ensures DoneIds(DayBuckets(idx, day)) == DoneIdsOfEntries(entries, day)
  {
    var lhs, rhs := DoneIds(DayBuckets(idx, day)), DoneIdsOfEntries(entries, day);
    forall h | h in lhs ensures h in rhs {
      assert Bucket(idx, day, h) == DayBuckets(idx, day)[h];
      var e :| e in Bucket(idx, day, h) && IsDone(e);
      assert e in Matching(entries, day, h);
    }
    forall h | h in rhs ensures h in lhs {
      var e :| e in entries && IsDone(e) && EntryKey(e).Some? && EntryKey(e).value.0 == day
               && EntryKey(e).value.1 == h;
      assert HasKey(e, day, h);
      assert e in Matching(entries, day, h);
      assert Bucket(idx, day, h) != [];
    }
  }

  /** A day with a done entry for some habit id counts at least one, even with no habit defined. */
  lemma DoneEntryCounts(idx: Index, entries: seq<Entry>, day: string, e: Entry)
    requires IndexOf(idx, entries)
    requires e in entries && IsDone(e) && EntryKey(e).Some? && EntryKey(e).value.0 == day
    ensures |DoneIds(DayBuckets(idx, day))| >= 1
  {
    DoneIdsAreDoneEntries(idx, entries, day);
    assert EntryKey(e).value.1 in DoneIdsOfEntries(entries, day);
  }

  /** A day that no keyed entry falls on counts 0. */
  lemma EmptyDayCountsZero(idx: Index, entries: seq<Entry>, day: string)
    requires IndexOf(idx, entries)
    requires forall e | e in entries :: EntryKey(e).None? || EntryKey(e).value.0 != day
    ensures DoneIds(DayBuckets(idx, day)) == {}
  {
    DoneIdsAreDoneEntries(idx, entries, day);
  }

  /** `totalDone`: the number of entries, over all days, whose status is done. */
  function TotalDone(entries: seq<Entry>): (r: nat)
    ensures r <= |entries|
    ensures (forall e | e in entries :: !IsDone(e)) ==> r == 0
    ensures (forall e | e in entries :: IsDone(e)) ==> r == |entries|
  {
    var done := Filter(entries, IsDone);
    assert (forall e | e in entries :: !IsDone(e)) ==> done == [] by {
      if done != [] { assert done[0] in done; }
    }
    |done|
  }

  /** A single entry adds one to the count exactly when it is done. */
  lemma TotalDoneOne(e: Entry)
    ensures TotalDone([e]) == if IsDone(e) then 1 else 0
  {
    assert [e][..0] == [];
  }

  /** The count over two lists is the sum of their counts, so each done entry is counted once. */
  lemma TotalDoneAppend(a: seq<Entry>, b: seq<Entry>)
    ensures TotalDone(a + b) == TotalDone(a) + TotalDone(b)
  {
    FilterAppend(a, b, IsDone);
  }

  const RecentLimit: nat := 8

  /**
   * The recent-entries list: `.slice(0, 8)` of the entries already ordered
   * newest first, so at most eight of them, in that order.
   */
  function RecentEntries(ordered: seq<Entry>): (r: seq<Entry>)
    ensures |r| == if |ordered| < RecentLimit then |ordered| else RecentLimit
    ensures r == ordered[..|r|]
  {
    if |ordered| < RecentLimit then ordered else ordered[..RecentLimit]
  }

  predicate IsRated(e: Entry)
  {
    e.fields.bewertung.Some?
  }

  /** `e.fields.bewertung ?? 0`. */
  function RatingOrZero(e: Entry): int
  {
    match e.fields.bewertung
    case None => 0
    case Some(v) => v
  }

  /** The number of entries carrying a rating. */
  function RatedCount(entries: seq<Entry>): nat
  {
    |Filter(entries, IsRated)|
  }

  /** The sum of the ratings present. */
  function RatingSum(entries: seq<Entry>): int
  {
    SumOf(Filter(entries, IsRated), RatingOrZero)
  }

  /** `x / d` rounded toward minus infinity lies within one step of `x`. */
  lemma DivBounds(x: int, d: int)
    requires d > 0
    ensures d * (x / d) <= x < d * (x / d) + d
  {
  }

  /**
   * `Math.round(s / n * 10)` on exact numbers: the whole number of tenths
   * nearest to the mean, a half rounding up.
   */
  function NearestTenth(s: int, n: nat): (r: int)
    requires n > 0
    ensures 2 * n * r <= 20 * s + n < 2 * n * r + 2 * n
  {
    DivBounds(20 * s + n, 2 * n);
    (20 * s + n) / (2 * n)
  }

  /**
   * `avgRating`, in tenths: 0 when no entry carries a rating; otherwise the
   * mean of the ratings present, times ten, rounded half up.
   */
  function AvgRatingTenths(entries: seq<Entry>): (r: int)
    ensures RatedCount(entries) == 0 ==> r == 0
    ensures RatedCount(entries) > 0 ==>
              var n, s := RatedCount(entries), RatingSum(entries);
              2 * n * r <= 20 * s + n < 2 * n * r + 2 * n
  {
    var n := RatedCount(entries);
    if n == 0 then 0 else NearestTenth(RatingSum(entries), n)
  }

  /** Reordering the entries does not change the average. */
  lemma AvgRatingPermutation(a: seq<Entry>, b: seq<Entry>)
    requires multiset(a) == multiset(b)
    ensures AvgRatingTenths(a) == AvgRatingTenths(b)
  {
    FilterPermutation(a, b, IsRated);
    SumOfPermutation(Filter(a, IsRated), Filter(b, IsRated), RatingOrZero);
    assert RatedCount(a) == RatedCount(b) && RatingSum(a) == RatingSum(b);
  }

  /** With every present rating in [lo, hi], the average lies in [lo, hi] too. */
  lemma AvgRatingBounds(entries: seq<Entry>, lo: int, hi: int)
    requires RatedCount(entries) > 0
    requires forall e | e in entries && IsRated(e) :: lo <= RatingOrZero(e) <= hi
    ensures 10 * lo <= AvgRatingTenths(entries) <= 10 * hi
  {
    var rated := Filter(entries, IsRated);
    var n, s, r := |rated|, RatingSum(entries), AvgRatingTenths(entries);
    SumOfBounds(rated, RatingOrZero, lo, hi);
    MeanBounds(n, s, r, lo, hi);
  }

  /** The arithmetic behind the bounds: a rounded mean of values in [lo, hi]. */
  lemma MeanBounds(n: int, s: int, r: int, lo: int, hi: int)
    requires n > 0 && n * lo <= s <= n * hi
    requires 2 * n * r <= 20 * s + n < 2 * n * r + 2 * n
    ensures 10 * lo <= r <= 10 * hi
  {
    MeanBelow(n, s, r, hi);
    MeanAbove(n, s, r, lo);
  }

  lemma MeanBelow(n: int, s: int, r: int, hi: int)
    requires n > 0 && s <= n * hi
    requires 2 * n * r <= 20 * s + n
    ensures r <= 10 * hi
  {
    var k := 2 * n;
    assert k * r <= 20 * s + n;
    assert k * (10 * hi + 1) == 20 * (n * hi) + k;
    ProductOrder(k, r, 10 * hi + 1);
  }

  lemma MeanAbove(n: int, s: int, r: int, lo: int)
    requires n > 0 && n * lo <= s
    requires 20 * s + n < 2 * n * r + 2 * n
    ensures 10 * lo <= r
  {
    var k := 2 * n;
    assert 20 * s + n < k * r + k;
    assert k * (10 * lo) == 20 * (n * lo);
    assert k * (r + 1) == k * r + k;
    ProductOrder(k, 10 * lo, r + 1);
  }

  /** Ratings that are all 0 give 0, which the dashboard shows as a dash, the same as no rating at all. */
  lemma ZeroRatingsLookUnrated(entries: seq<Entry>)
    requires forall e | e in entries && IsRated(e) :: RatingOrZero(e) == 0
    ensures AvgRatingTenths(entries) == 0
  {
    if RatedCount(entries) > 0 {
      AvgRatingBounds(entries, 0, 0);
    }
  }

  lemma ProductOrder(k: int, a: int, b: int)
    requires k > 0 && k * a < k * b
    ensures a < b
  {
  }

  /** Entries rated 4, 5 and 3 average 4.0. */
  lemma AvgRatingExample(a: Entry, b: Entry, c: Entry)
    requires a.fields.bewertung == Some(4) && b.fields.bewertung == Some(5) && c.fields.bewertung == Some(3)
    ensures AvgRatingTenths([a, b, c]) == 40
  {
    assert RatedCount([a, b, c]) == 3 && RatingSum([a, b, c]) == 12 by {
      assert Filter([a, b, c], IsRated) == [a, b, c];
      SumOfThree(a, b, c);
    }
    AvgOf([a, b, c], 3, 12);
  }

  /** An entry without a rating is not counted: next to one rated entry, the average is that rating. */
  lemma UnratedNotCounted(u: Entry, e: Entry)
    requires !IsRated(u) && IsRated(e)
    ensures AvgRatingTenths([u, e]) == 10 * RatingOrZero(e)
  {
    UnratedIgnored(u, e);
    AvgOf([u, e], 1, RatingOrZero(e));
  }

  /** A rating of 0 is a rating: it counts towards the mean, so 0 and 5 give 2.5. */
  lemma ZeroRatingCounts(z: Entry, f: Entry)
    requires z.fields.bewertung == Some(0) && f.fields.bewertung == Some(5)
    ensures AvgRatingTenths([z, f]) == 25
  {
    assert RatedCount([z, f]) == 2 && RatingSum([z, f]) == 5 by {
      assert Filter([z, f], IsRated) == [z, f];
      SumOfTwo(z, f);
    }
    AvgOf([z, f], 2, 5);
  }

  /** The average of entries with a known count and sum of ratings. */
  lemma AvgOf(entries: seq<Entry>, n: nat, s: int)
    requires n > 0 && RatedCount(entries) == n && RatingSum(entries) == s
    ensures AvgRatingTenths(entries) == (20 * s + n) / (2 * n)
  {
  }

  /** An unrated entry before a rated one leaves the rated one alone in the mean. */
  lemma UnratedIgnored(u: Entry, e: Entry)
    requires !IsRated(u) && IsRated(e)
    ensures RatedCount([u, e]) == 1
    ensures RatingSum([u, e]) == RatingOrZero(e)
  {
    assert [u, e] == [u] + [e];
    assert Filter([u], IsRated) == [];
    assert Filter([u, e], IsRated) == [e];
    SumOfAppend([], e, RatingOrZero);
  }

  lemma SumOfTwo(a: Entry, b: Entry)
    ensures SumOf([a, b], RatingOrZero) == RatingOrZero(a) + RatingOrZero(b)
  {
    assert [a, b] == [a] + [b] && [a] == [] + [a];
    SumOfAppend([], a, RatingOrZero);
    SumOfAppend([a], b, RatingOrZero);
  }

  lemma SumOfThree(a: Entry, b: Entry, c: Entry)
    ensures SumOf([a, b, c], RatingOrZero) == RatingOrZero(a) + RatingOrZero(b) + RatingOrZero(c)
  {
    assert [a, b, c] == [a, b] + [c];
    SumOfTwo(a, b);
    SumOfAppend([a, b], c, RatingOrZero);
  }
}
