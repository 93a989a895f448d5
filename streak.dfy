/**
 * The streak calculator (src/lib/streak.ts): a day-by-day state machine over
 * the stored streak record and the per-user watch history, and the
 * per-day, at-most-once history append that drives it. Dates are day
 * numbers; "today" is a parameter. Each operation returns the new store
 * alongside its result.
 */
module Streak {
  import opened Wrappers
  import opened Types

  /** The streak fields read back from storage, with the defaults the
      calculator starts from when there is no readable record. */
  datatype Saved = Saved(current: nat, longest: nat, last: Option<int>, start: Option<int>)

  function SavedStreak(store: Store, userId: string): (s: Saved)
    ensures StreakKey(userId) in store && store[StreakKey(userId)].StreakRecord? ==>
      var d := store[StreakKey(userId)].streak;
      s == Saved(d.currentStreak, d.longestStreak, d.lastWatchedDate, d.streakStartDate)
    ensures !(StreakKey(userId) in store && store[StreakKey(userId)].StreakRecord?) ==>
      s == Saved(0, 0, None, None)
  {
    var key := StreakKey(userId);
    if key in store && store[key].StreakRecord? then
      var d := store[key].streak;
      Saved(d.currentStreak, d.longestStreak, d.lastWatchedDate, d.streakStartDate)
    else
      Saved(0, 0, None, None)
  }

  /** The per-day watch lists as the calculator reads them: an unreadable
      entry counts as an empty history. */
  function History(store: Store, userId: string): map<int, seq<string>> {
    var key := HistoryKey(userId);
    if key in store && store[key].HistoryRecord? then store[key].days else map[]
  }

  predicate WatchedOn(store: Store, userId: string, day: int) {
    var h := History(store, userId);
    day in h && |h[day]| > 0
  }

  /** The result of `calculateStreak` and the store after its write, if any. */
  datatype Evaluated = Evaluated(data: StreakData, store: Store)

  predicate HasHistory(user: Option<User>) {
    user.Some? && |user.value.watchedMovies| > 0
  }

  /** `calculateStreak`. Without a user or watched movies, an inactive zero
      streak. Otherwise the saved streak is re-evaluated against today: with
      no watch today it is kept (active) when the last watch was yesterday,
      broken (inactive) otherwise and reset when more than a day was missed;
      with a watch today and the last watch before today, it is extended
      from yesterday or restarted, and the new record is written. */
  function CalculateStreak(user: Option<User>, store: Store, today: int): (r: Evaluated)
    ensures r.data.today == today
    ensures !HasHistory(user) ==> r.store == store
    ensures HasHistory(user) ==>
      r.store == store || r.store == store[StreakKey(user.value.id) := StreakRecord(r.data)]
    ensures HasHistory(user) ==> r.data.longestStreak >= SavedStreak(store, user.value.id).longest
    ensures r.store != store ==>
      r.data.lastWatchedDate == Some(today) && r.data.isStreakActive
      && r.data.longestStreak >= r.data.currentStreak
  {
    if !HasHistory(user) then
      Evaluated(StreakData(0, 0, None, None, today, false), store)
    else
      var id := user.value.id;
      var saved := SavedStreak(store, id);
      if !WatchedOn(store, id, today) then
        if saved.last == Some(today - 1) then
          Evaluated(StreakData(saved.current, saved.longest, saved.last, saved.start, today, true), store)
        else if saved.last.Some? && saved.last.value < today - 1 then
          Evaluated(StreakData(0, saved.longest, saved.last, None, today, false), store)
        else
          Evaluated(StreakData(saved.current, saved.longest, saved.last, saved.start, today, false), store)
      else if saved.last.None? || saved.last.value < today then
        var current: nat := if saved.last == Some(today - 1) then saved.current + 1 else 1;
        var start := if saved.last == Some(today - 1) then saved.start else Some(today);
        var longest: nat := if current > saved.longest then current else saved.longest;
        var data := StreakData(current, longest, Some(today), start, today, true);
        Evaluated(data, store[StreakKey(id) := StreakRecord(data)])
      else
        Evaluated(StreakData(saved.current, saved.longest, saved.last, saved.start, today, true), store)
  }

  // ---------------------------------------------------------------------------
  // Properties of calculateStreak

  /** No user, or a user who has watched nothing: an inactive zero streak. */
  lemma NoHistoryGivesZeroStreak(user: Option<User>, store: Store, today: int)
    requires !HasHistory(user)
    ensures var r := CalculateStreak(user, store, today);
      r.data == StreakData(0, 0, None, None, today, false) && r.store == store
  {
  }

  /** A watch today after a watch yesterday extends the streak by exactly one,
      keeps its start and records today as the last watch. */
  lemma WatchAfterYesterdayExtends(user: Option<User>, store: Store, today: int)
    requires HasHistory(user) && WatchedOn(store, user.value.id, today)
    requires SavedStreak(store, user.value.id).last == Some(today - 1)
    ensures var saved := SavedStreak(store, user.value.id);
      var r := CalculateStreak(user, store, today);
      r.data.currentStreak == saved.current + 1 && r.data.streakStartDate == saved.start
      && r.data.lastWatchedDate == Some(today) && r.data.isStreakActive
      && r.data.longestStreak == (if saved.current + 1 > saved.longest then saved.current + 1 else saved.longest)
      && r.store == store[StreakKey(user.value.id) := StreakRecord(r.data)]
  {
  }

  /** A watch today with no saved last watch, or one before yesterday, starts
      a new streak of one day beginning today. */
  lemma WatchAfterGapRestarts(user: Option<User>, store: Store, today: int)
    requires HasHistory(user) && WatchedOn(store, user.value.id, today)
    requires var last := SavedStreak(store, user.value.id).last; last.None? || last.value < today - 1
    ensures var saved := SavedStreak(store, user.value.id);
      var r := CalculateStreak(user, store, today);
      r.data.currentStreak == 1 && r.data.streakStartDate == Some(today)
      && r.data.lastWatchedDate == Some(today) && r.data.isStreakActive
      && r.data.longestStreak == (if saved.longest < 1 then 1 else saved.longest)
      && r.store == store[StreakKey(user.value.id) := StreakRecord(r.data)]
  {
  }

  /** When the last watch is already today (or later), re-evaluation changes
      nothing, writes nothing and reports the streak active. */
  lemma SameDayChangesNothing(user: Option<User>, store: Store, today: int)
    requires HasHistory(user) && WatchedOn(store, user.value.id, today)
    requires var last := SavedStreak(store, user.value.id).last; last.Some? && last.value >= today
    ensures var saved := SavedStreak(store, user.value.id);
      var r := CalculateStreak(user, store, today);
      r.store == store && r.data == StreakData(saved.current, saved.longest, saved.last, saved.start, today, true)
  {
  }

  /** No watch today: a watch yesterday keeps the streak active and unchanged;
      an older last watch breaks it, clearing its count and its start. */
  lemma NoWatchToday(user: Option<User>, store: Store, today: int)
    requires HasHistory(user) && !WatchedOn(store, user.value.id, today)
    ensures var saved := SavedStreak(store, user.value.id);
      var r := CalculateStreak(user, store, today);
      && r.store == store
      && r.data.longestStreak == saved.longest
      && (saved.last == Some(today - 1) ==>
            r.data == StreakData(saved.current, saved.longest, saved.last, saved.start, today, true))
      && (saved.last.Some? && saved.last.value < today - 1 ==>
            r.data == StreakData(0, saved.longest, saved.last, None, today, false))
      && (r.data.isStreakActive <==> saved.last == Some(today - 1))
  {
  }

  /** Evaluating twice on the same day is evaluating once: the record the
      first evaluation writes makes the second a no-op. */
  lemma CalculateStreakIdempotent(user: Option<User>, store: Store, today: int)
    ensures var r := CalculateStreak(user, store, today);
      CalculateStreak(user, r.store, today) == r
  {
    var r := CalculateStreak(user, store, today);
    if HasHistory(user) && r.store != store {
      var id := user.value.id;
      KeysDistinct(id, id);
      assert History(r.store, id) == History(store, id);
      assert SavedStreak(r.store, id).last == Some(today);
    }
  }

  /** The saved longest streak never decreases. */
  lemma LongestNeverDecreases(user: Option<User>, store: Store, today: int)
    requires user.Some?
    ensures SavedStreak(CalculateStreak(user, store, today).store, user.value.id).longest
            >= SavedStreak(store, user.value.id).longest
  {
  }

  // ---------------------------------------------------------------------------
  // recordMovieWatch

  /** The history `recordMovieWatch` starts from: the stored per-day lists, an
      empty history when nothing (or the empty string) is stored, and `None`
      when the stored entry cannot be read as a history, which aborts the
      whole call. */
  function StartingHistory(store: Store, userId: string): (h: Option<map<int, seq<string>>>)
    ensures h.Some? ==> h.value == History(store, userId)
  {
    var key := HistoryKey(userId);
    if key !in store || store[key] == Raw("") then Some(map[])
    else if store[key].HistoryRecord? then Some(store[key].days)
    else None
  }

  /** Today's list with the movie appended unless it is already there. */
  function AddWatch(days: map<int, seq<string>>, today: int, movieId: string): (r: map<int, seq<string>>)
    ensures r.Keys == days.Keys + {today}
    ensures forall d :: d in days && d != today ==> r[d] == days[d]
    ensures var prior := if today in days then days[today] else [];
      r[today] == if movieId in prior then prior else prior + [movieId]
  {
    var prior := if today in days then days[today] else [];
    days[today := if movieId in prior then prior else prior + [movieId]]
  }

  /** `recordMovieWatch`: appends the movie to today's history list at most
      once, stores the history, re-evaluates the streak for a user who has
      watched that movie and stores the resulting streak summary. An
      unreadable stored history aborts the call and changes nothing. */
  function RecordMovieWatch(store: Store, userId: string, movieId: string, today: int): (r: Store)
    ensures StartingHistory(store, userId).None? ==> r == store
    ensures StartingHistory(store, userId).Some? ==>
      && HistoryKey(userId) in r
      && r[HistoryKey(userId)] == HistoryRecord(AddWatch(StartingHistory(store, userId).value, today, movieId))
      && StreakKey(userId) in r && r[StreakKey(userId)].StreakRecord?
      && r[StreakKey(userId)].streak.isStreakActive
      && r[StreakKey(userId)].streak.today == today
      && var last := r[StreakKey(userId)].streak.lastWatchedDate; last.Some? && last.value >= today
    ensures forall k :: k != HistoryKey(userId) && k != StreakKey(userId) ==>
      (k in r <==> k in store) && (k in store ==> r[k] == store[k])
  {
    var start := StartingHistory(store, userId);
    if start.None? then store
    else
      var written := store[HistoryKey(userId) := HistoryRecord(AddWatch(start.value, today, movieId))];
      KeysDistinct(userId, userId);
      assert WatchedOn(written, userId, today);
      var evaluated := CalculateStreak(Some(User(userId, "", None, "", [movieId], None)), written, today);
      evaluated.store[StreakKey(userId) := StreakRecord(evaluated.data)]
  }

  /** Recording the same watch twice on the same day is recording it once. */
  lemma RecordMovieWatchIdempotent(store: Store, userId: string, movieId: string, today: int)
    ensures var once := RecordMovieWatch(store, userId, movieId, today);
      RecordMovieWatch(once, userId, movieId, today) == once
  {
    var start := StartingHistory(store, userId);
    if start.Some? {
      KeysDistinct(userId, userId);
      var user := Some(User(userId, "", None, "", [movieId], None));
      var days := AddWatch(start.value, today, movieId);
      var written := store[HistoryKey(userId) := HistoryRecord(days)];
      assert WatchedOn(written, userId, today);
      var e := CalculateStreak(user, written, today);
      var once := e.store[StreakKey(userId) := StreakRecord(e.data)];
      assert once == RecordMovieWatch(store, userId, movieId, today);
      assert StartingHistory(once, userId) == Some(days);
      assert AddWatch(days, today, movieId) == days;
      var written2 := once[HistoryKey(userId) := HistoryRecord(days)];
      assert written2 == once;
      assert SavedStreak(once, userId) == Saved(e.data.currentStreak, e.data.longestStreak, e.data.lastWatchedDate, e.data.streakStartDate);
      assert e.data.lastWatchedDate.Some? && e.data.lastWatchedDate.value >= today;
      assert WatchedOn(once, userId, today);
      SameDayChangesNothing(user, once, today);
    }
  }

  /** Recording a watch grows the saved current streak by at most one and
      never lowers the saved longest streak. */
  lemma RecordMovieWatchBounds(store: Store, userId: string, movieId: string, today: int)
    ensures var after := SavedStreak(RecordMovieWatch(store, userId, movieId, today), userId);
      var before := SavedStreak(store, userId);
      after.current <= before.current + 1 && after.longest >= before.longest
  {
    var start := StartingHistory(store, userId);
    if start.Some? {
      KeysDistinct(userId, userId);
      var written := store[HistoryKey(userId) := HistoryRecord(AddWatch(start.value, today, movieId))];
      assert SavedStreak(written, userId) == SavedStreak(store, userId);
    }
  }

  /** A second watch on the same day, of any movie, leaves the saved streak
      counts as the first one left them. */
  lemma RecordAgainSameDay(store: Store, userId: string, first: string, second: string, today: int)
    requires StartingHistory(store, userId).Some?
    ensures var once := RecordMovieWatch(store, userId, first, today);
      var twice := RecordMovieWatch(once, userId, second, today);
      SavedStreak(twice, userId).current == SavedStreak(once, userId).current
      && SavedStreak(twice, userId).longest == SavedStreak(once, userId).longest
  {
    KeysDistinct(userId, userId);
    var once := RecordMovieWatch(store, userId, first, today);
    var start := StartingHistory(once, userId);
    assert start.Some?;
    var written := once[HistoryKey(userId) := HistoryRecord(AddWatch(start.value, today, second))];
    assert SavedStreak(written, userId) == SavedStreak(once, userId);
    assert WatchedOn(written, userId, today);
    SameDayChangesNothing(Some(User(userId, "", None, "", [second], None)), written, today);
  }

  /** Two watches on the same day, of the same or of different movies,
      together grow the saved current streak by at most one. */
  lemma TwoWatchesSameDayExtendOnce(store: Store, userId: string, first: string, second: string, today: int)
    ensures var twice := RecordMovieWatch(RecordMovieWatch(store, userId, first, today), userId, second, today);
      SavedStreak(twice, userId).current <= SavedStreak(store, userId).current + 1
      && SavedStreak(twice, userId).longest >= SavedStreak(store, userId).longest
  {
    var once := RecordMovieWatch(store, userId, first, today);
    RecordMovieWatchBounds(store, userId, first, today);
    if StartingHistory(store, userId).Some? {
      RecordAgainSameDay(store, userId, first, second, today);
    } else {
      assert once == store;
      RecordMovieWatchBounds(store, userId, second, today);
    }
  }

  // ---------------------------------------------------------------------------
  // Milestones

  const Milestones: seq<int> := [3, 7, 14, 30, 50, 100, 365]

  /** `getStreakMilestoneMessage`: the congratulation for a milestone streak
      length, none for any other length. */
  function StreakMilestoneMessage(streak: int): (r: Option<string>)
    ensures r.Some? <==> streak in {3, 7, 14, 30, 50, 100, 365}
    ensures r.Some? ==> |r.value| > 0
  {
    if streak == 3 then Some("Three days in a row! You're building a habit!")
    else if streak == 7 then Some("Congrats on a week-long streak! Keep going!")
    else if streak == 14 then Some("Two weeks strong! You're becoming a movie buff!")
    else if streak == 30 then Some("Amazing! A month-long streak - that's dedication!")
    else if streak == 50 then Some("50 days straight! You're a movie marathon master!")
    else if streak == 100 then Some("Incredible 100-day streak! You're a true cinephile!")
    else if streak == 365 then Some("A full year of movies every day! Legendary status achieved!")
    else None
  }

  /** `hasReachedMilestoneToday`: whether the streak length is a milestone. */
  function HasReachedMilestoneToday(streak: int): (r: bool)
    ensures r <==> streak in {3, 7, 14, 30, 50, 100, 365}
  {
    streak in Milestones
  }

  /** The two milestone helpers agree: a message exists exactly for the
      milestone lengths. */
  lemma MilestoneMessageIffReached(streak: int)
    ensures StreakMilestoneMessage(streak).Some? <==> HasReachedMilestoneToday(streak)
  {
  }
}
