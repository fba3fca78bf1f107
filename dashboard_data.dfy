/**
 * The dashboard's data hook (src/hooks/useDashboardData.ts): the three
 * record lists with a loading flag and an error, reloaded together by
 * `fetchAll`, and the map from habit id to habit used for lookups.
 */
module DashboardData {
  import opened Seqs
  import opened AppTypes

  /** The position of the last habit with the given id, if any. */
  function LastIndexOf(habits: seq<Habit>, id: string): (r: Option<nat>)
    ensures r.Some? ==> r.value < |habits| && habits[r.value].recordId == id
    ensures r.Some? ==> forall j | r.value < j < |habits| :: habits[j].recordId != id
    ensures r.None? ==> forall j | 0 <= j < |habits| :: habits[j].recordId != id
  {
    if habits == [] then None
    else if habits[|habits| - 1].recordId == id then Some(|habits| - 1)
    else LastIndexOf(habits[..|habits| - 1], id)
  }

  /** The last habit in array order with the given id, if any. */
  function LastWithId(habits: seq<Habit>, id: string): (r: Option<Habit>)
    ensures r.Some? ==> r.value.recordId == id
    ensures r.Some? ==> exists i | 0 <= i < |habits| ::
                          habits[i] == r.value && forall j | i < j < |habits| :: habits[j].recordId != id
    ensures r.None? <==> id !in HabitIds(habits)
  {
    match LastIndexOf(habits, id)
    case None => None
    case Some(i) => Some(habits[i])
  }

  /**
   * `gewohnheitenMap`: `m.set(r.record_id, r)` for every habit in turn, so a
   * later habit with a repeated id replaces the earlier one.
   */
  method BuildHabitMap(habits: seq<Habit>) returns (m: map<string, Habit>)
    ensures m.Keys == HabitIds(habits)
    ensures forall k | k in m :: m[k].recordId == k
    ensures forall k | k in m :: Some(m[k]) == LastWithId(habits, k)
  {
    m := map[];
    var i := 0;
    while i < |habits|
      invariant 0 <= i <= |habits|
      invariant m.Keys == HabitIds(habits[..i])
      invariant forall k | k in m :: Some(m[k]) == LastWithId(habits[..i], k)
    {
      var r := habits[i];
      assert habits[..i + 1] == habits[..i] + [r];
      assert habits[..i + 1][..i] == habits[..i];
      m := m[r.recordId := r];
      i := i + 1;
    }
    assert habits[..i] == habits;
  }

  /** With distinct ids every habit is stored under its own id. */
  lemma DistinctIdsAllStored(habits: seq<Habit>, m: map<string, Habit>)
    requires forall i, j | 0 <= i < j < |habits| :: habits[i].recordId != habits[j].recordId
    requires m.Keys == HabitIds(habits)
    requires forall k | k in m :: Some(m[k]) == LastWithId(habits, k)
    ensures forall h | h in habits :: h.recordId in m && m[h.recordId] == h
  {
    forall h | h in habits ensures h.recordId in m && m[h.recordId] == h {
      LastOfDistinct(habits, h);
    }
  }

  /** With distinct ids, the last habit with a listed habit's id is that habit. */
  lemma LastOfDistinct(habits: seq<Habit>, h: Habit)
    requires forall i, j | 0 <= i < j < |habits| :: habits[i].recordId != habits[j].recordId
    requires h in habits
    ensures LastWithId(habits, h.recordId) == Some(h)
  {
    var p :| 0 <= p < |habits| && habits[p] == h;
    var k := LastIndexOf(habits, h.recordId);
    assert !(k.value < p) && !(p < k.value);
  }

  /** Two habits sharing an id: the later one is stored. */
  lemma LaterDuplicateWins(first: Habit, second: Habit)
    requires first.recordId == second.recordId
    ensures LastWithId([first, second], first.recordId) == Some(second)
  {
    assert [first, second][..1] == [first];
  }

  /** An error as the hook stores it: its message. */
  datatype Error = Error(message: string)

  /** What a failed fetch throws: an `Error`, or any other value. */
  datatype Thrown = ThrownError(message: string) | ThrownOther

  const FallbackMessage: string := "Fehler beim Laden der Daten"

  /** `err instanceof Error ? err : new Error('Fehler beim Laden der Daten')`. */
  function AsError(t: Thrown): (e: Error)
    ensures t.ThrownError? ==> e.message == t.message
    ensures t.ThrownOther? ==> e.message == FallbackMessage
  {
    match t
    case ThrownError(msg) => Error(msg)
    case ThrownOther => Error(FallbackMessage)
  }

  /** The outcome of fetching all three lists together: all three, or one failure. */
  datatype FetchOutcome =
    | Fetched(checkIns: seq<CheckIn>, entries: seq<Entry>, habits: seq<Habit>)
    | Failed(thrown: Thrown)

  /** The three lists. */
  datatype Lists = Lists(checkIns: seq<CheckIn>, entries: seq<Entry>, habits: seq<Habit>)

  const NoLists: Lists := Lists([], [], [])

  /** The lists after a series of fetches: those of the latest successful one, or empty. */
  function LatestLists(history: seq<FetchOutcome>): (r: Lists)
    ensures (forall k | 0 <= k < |history| :: history[k].Failed?) ==> r == NoLists
    ensures history != [] && history[|history| - 1].Fetched? ==>
              var o := history[|history| - 1];
              r == Lists(o.checkIns, o.entries, o.habits)
  {
    if history == [] then NoLists
    else
      var o := history[|history| - 1];
      match o
      case Fetched(c, e, h) => Lists(c, e, h)
      case Failed(_) => LatestLists(history[..|history| - 1])
  }

  /** A failed fetch leaves the lists as the fetches before it left them. */
  lemma FailureKeepsLists(history: seq<FetchOutcome>, t: Thrown)
    ensures LatestLists(history + [Failed(t)]) == LatestLists(history)
  {
    assert (history + [Failed(t)])[..|history|] == history;
  }

  /** The error shown after a series of fetches: that of the latest one only. */
  function LatestError(history: seq<FetchOutcome>): (r: Option<Error>)
    ensures history == [] ==> r.None?
    ensures history != [] ==> (r.None? <==> history[|history| - 1].Fetched?)
  {
    if history == [] then None
    else
      match history[|history| - 1]
      case Fetched(_, _, _) => None
      case Failed(t) => Some(AsError(t))
  }

  /** A successful fetch clears an earlier failure's error. */
  lemma SuccessClearsError(history: seq<FetchOutcome>, o: FetchOutcome)
    requires o.Fetched?
    ensures LatestError(history + [o]).None?
    ensures LatestLists(history + [o]) == Lists(o.checkIns, o.entries, o.habits)
  {
  }

  /** The hook's state. */
  class DashboardState {
    var checkIns: seq<CheckIn>
    var entries: seq<Entry>
    var habits: seq<Habit>
    var loading: bool
    var error: Option<Error>
    ghost var history: seq<FetchOutcome>

    /**
     * The state is the one the fetches so far produce: loading until the
     * first fetch settles, the latest successful lists, the latest error.
     */
    ghost predicate Valid()
      reads this
    {
      && Lists(checkIns, entries, habits) == LatestLists(history)
      && error == LatestError(history)
      && loading == (history == [])
    }

    constructor()
      ensures Valid() && history == []
      ensures loading && error.None? && checkIns == [] && entries == [] && habits == []
    {
      checkIns, entries, habits := [], [], [];
      loading := true;
      error := None;
      history := [];
    }

    /**
     * `fetchAll`: clear the error; on success replace all three lists, on
     * failure keep them and record the error; either way stop loading.
     */
    method FetchAll(outcome: FetchOutcome)
      requires Valid()
      modifies this
      ensures Valid() && history == old(history) + [outcome]
      ensures !loading
      ensures outcome.Fetched? ==>
                && error.None?
                && checkIns == outcome.checkIns && entries == outcome.entries && habits == outcome.habits
      ensures outcome.Failed? ==>
                && error == Some(AsError(outcome.thrown))
                && checkIns == old(checkIns) && entries == old(entries) && habits == old(habits)
    {
      ghost var next := history + [outcome];
      error := None;
      match outcome {
        case Fetched(c, e, h) =>
          checkIns := c;
          entries := e;
          habits := h;
          SuccessClearsError(history, outcome);
        case Failed(t) =>
          error := Some(AsError(t));
          FailureKeepsLists(history, t);
          assert LatestError(next) == Some(AsError(t));
      }
      loading := false;
      history := next;
    }
  }
}
