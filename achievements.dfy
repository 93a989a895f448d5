/**
 * The achievement evaluator (src/lib/achievements.ts). From a user's watched
 * list, the catalog and the stored streak record it derives five families of
 * achievements (watch-count milestones, genre tiers, director collections,
 * era collections and streak milestones) and orders them: unlocked first,
 * then by completion ratio, highest first.
 */
module Achievements {
  import opened Wrappers
  import opened JsStrings
  import opened JsArrays
  import opened Types
  import opened Movies

  datatype Kind = MilestoneType | CollectionType | StreakType | SpecialType

  /** An achievement; the description, icon and unlock date are not modelled. */
  datatype Achievement = Achievement(
    id: string,
    name: string,
    kind: Kind,
    progress: nat,
    max: nat,
    unlocked: bool,
    level: Option<nat>)

  function Min(a: nat, b: nat): nat {
    if a <= b then a else b
  }

  /** How many of `movies` the user has watched. */
  function WatchedAmong(movies: seq<Movie>, watched: seq<string>): (n: nat)
    ensures n <= |movies|
  {
    |Filter(movies, (m: Movie) => m.id in watched)|
  }

  // ---------------------------------------------------------------------------
  // 1. Watch-count milestones

  datatype MilestoneDef = MilestoneDef(id: string, name: string, max: nat)

  const MilestoneTable: seq<MilestoneDef> := [
    MilestoneDef("watched-1", "First Steps", 1),
    MilestoneDef("watched-5", "Getting Started", 5),
    MilestoneDef("watched-10", "Movie Enthusiast", 10),
    MilestoneDef("watched-25", "Film Buff", 25),
    MilestoneDef("watched-50", "Movie Marathon", 50),
    MilestoneDef("watched-100", "Movie Maestro", 100),
    MilestoneDef("watched-250", "Film Fanatic", 250),
    MilestoneDef("watched-500", "Movie Master", 500),
    MilestoneDef("watched-750", "Cinematic Legend", 750),
    MilestoneDef("watched-1000", "1001 Movies Conqueror", 1000),
    MilestoneDef("watched-1001", "Completed Journey", 1001)]

  function MilestoneAchievement(d: MilestoneDef, watchedCount: nat): Achievement {
    Achievement(d.id, d.name, MilestoneType, Min(watchedCount, d.max), d.max, watchedCount >= d.max, None)
  }

  /** One milestone per table entry, in table order. */
  function Milestones(table: seq<MilestoneDef>, watchedCount: nat): seq<Achievement> {
    if table == [] then []
    else Milestones(table[..|table| - 1], watchedCount) + [MilestoneAchievement(table[|table| - 1], watchedCount)]
  }

  /** Every milestone is present, in table order, with progress capped at its
      maximum and unlocked exactly when the watch count reaches it. */
  lemma {:induction false} MilestonesFacts(table: seq<MilestoneDef>, watchedCount: nat)
    ensures var ms := Milestones(table, watchedCount);
      && |ms| == |table|
      && forall k :: 0 <= k < |table| ==>
           && ms[k].id == table[k].id && ms[k].kind == MilestoneType
           && ms[k].max == table[k].max
           && ms[k].progress == Min(watchedCount, ms[k].max)
           && (ms[k].unlocked <==> watchedCount >= ms[k].max)
    decreases |table|
  {
    if table != [] {
      MilestonesFacts(table[..|table| - 1], watchedCount);
    }
  }

  // ---------------------------------------------------------------------------
  // 2. Genre tiers

  const TrackedGenres: seq<string> := ["Drama", "Comedy", "Action", "Romance", "Thriller", "Horror", "Sci-Fi", "Documentary"]

  const GenreLevels: seq<nat> := [5, 10, 25, 50, 100]

  /** The number of thresholds `count` has reached. */
  function Reached(count: nat, thresholds: seq<nat>): (r: nat)
    ensures r <= |thresholds|
  {
    if thresholds == [] then 0
    else (if count >= thresholds[0] then 1 else 0) + Reached(count, thresholds[1..])
  }

  /** When exactly the first `k` thresholds are reached, `k` are reached. */
  lemma {:induction false} ReachedPrefix(count: nat, thresholds: seq<nat>, k: nat)
    requires k <= |thresholds|
    requires forall j :: 0 <= j < k ==> count >= thresholds[j]
    requires forall j :: k <= j < |thresholds| ==> count < thresholds[j]
    ensures Reached(count, thresholds) == k
    decreases |thresholds|
  {
    if thresholds != [] {
      ReachedPrefix(count, thresholds[1..], if k > 0 then k - 1 else 0);
    }
  }

  /** The level is the index, plus one, of the largest threshold reached; the
      next threshold after it is not reached. */
  lemma GenreLevelFacts(count: nat)
    ensures var level := Reached(count, GenreLevels);
      && (level > 0 <==> count >= 5)
      && (level > 0 ==> GenreLevels[level - 1] <= count)
      && (level < 5 ==> count < GenreLevels[level])
  {
    var k := if count < 5 then 0 else if count < 10 then 1 else if count < 25 then 2
             else if count < 50 then 3 else if count < 100 then 4 else 5;
    ReachedPrefix(count, GenreLevels, k);
  }

  function GenreId(genre: string): string {
    "genre-" + ToLower(genre)
  }

  /** A genre tier. Its maximum is the next threshold not yet reached (the top
      threshold once all are), and it is unlocked from the first threshold,
      so an unlocked tier may show progress below its maximum. */
  function GenreAchievement(genre: string, count: nat): (a: Achievement)
    ensures a.id == GenreId(genre) && a.kind == CollectionType && a.progress == count
    ensures a.level.Some? && a.level.value <= |GenreLevels|
    ensures a.unlocked <==> count >= GenreLevels[0]
    ensures a.level.value > 0 ==> GenreLevels[a.level.value - 1] <= count
    ensures a.level.value < |GenreLevels| ==> count < a.max && a.max == GenreLevels[a.level.value]
    ensures a.level.value == |GenreLevels| ==> a.max == 100
  {
    GenreLevelFacts(count);
    var level := Reached(count, GenreLevels);
    var next := if level < |GenreLevels| then GenreLevels[level] else GenreLevels[level - 1];
    Achievement(GenreId(genre), genre + " Aficionado", CollectionType, count, next, level > 0, Some(level))
  }

  function GenreCount(catalog: seq<Movie>, watched: seq<string>, genre: string): nat {
    WatchedAmong(GetMoviesByGenre(catalog, genre), watched)
  }

  /** One tier per listed genre of which the user has watched a catalog
      movie, in list order. */
  function Genres(genres: seq<string>, catalog: seq<Movie>, watched: seq<string>): seq<Achievement> {
    if genres == [] then []
    else
      var genre := genres[|genres| - 1];
      var count := GenreCount(catalog, watched, genre);
      var init := Genres(genres[..|genres| - 1], catalog, watched);
      if count > 0 then init + [GenreAchievement(genre, count)] else init
  }

  lemma {:induction false} GenresMembers(genres: seq<string>, catalog: seq<Movie>, watched: seq<string>)
    ensures forall a :: a in Genres(genres, catalog, watched) <==>
      exists g :: g in genres && GenreCount(catalog, watched, g) > 0
                  && a == GenreAchievement(g, GenreCount(catalog, watched, g))
    decreases |genres|
  {
    if genres != [] {
      var init := genres[..|genres| - 1];
      GenresMembers(init, catalog, watched);
      assert genres == init + [genres[|genres| - 1]];
    }
  }

  // ---------------------------------------------------------------------------
  // 3. Director collections

  const TrackedDirectors: seq<string> := ["Alfred Hitchcock", "Steven Spielberg", "Martin Scorsese", "Stanley Kubrick", "Akira Kurosawa"]

  /** `s.replace(/\s/g, '-')`. */
  function Hyphenate(s: string): (r: string)
    ensures |r| == |s|
    ensures forall i :: 0 <= i < |s| ==> r[i] == if IsSpace(s[i]) then '-' else s[i]
  {
    seq(|s|, i requires 0 <= i < |s| => if IsSpace(s[i]) then '-' else s[i])
  }

  function DirectorId(director: string): string {
    "director-" + Hyphenate(ToLower(director))
  }

  /** The second word of the director's name (JavaScript's `undefined` when
      there is none), followed by " Expert". */
  function DirectorName(director: string): string {
    var words := Split(director, " ");
    (if |words| > 1 then words[1] else "undefined") + " Expert"
  }

  /** A director collection: all of the director's catalog movies, unlocked
      once every one is watched. */
  function DirectorAchievement(director: string, catalog: seq<Movie>, watched: seq<string>): (a: Achievement)
    ensures var movies := GetDirectorMovies(catalog, director);
      && a.id == DirectorId(director) && a.kind == CollectionType
      && a.max == |movies| && a.progress == WatchedAmong(movies, watched) && a.progress <= a.max
      && (a.unlocked <==> a.progress == a.max && a.max > 0)
  {
    var movies := GetDirectorMovies(catalog, director);
    var count := WatchedAmong(movies, watched);
    Achievement(DirectorId(director), DirectorName(director), CollectionType, count, |movies|,
                count == |movies| && |movies| > 0, None)
  }

  /** A director collection is unlocked exactly when the director has a
      catalog movie and the user has watched every one of them. */
  lemma DirectorUnlockedIffAllWatched(director: string, catalog: seq<Movie>, watched: seq<string>)
    ensures var movies := GetDirectorMovies(catalog, director);
      DirectorAchievement(director, catalog, watched).unlocked
      <==> |movies| > 0 && forall m :: m in movies ==> m.id in watched
  {
    FilterKeepsAll(GetDirectorMovies(catalog, director), (m: Movie) => m.id in watched);
  }

  /** One collection per listed director with a catalog movie, in list order. */
  function Directors(directors: seq<string>, catalog: seq<Movie>, watched: seq<string>): seq<Achievement> {
    if directors == [] then []
    else
      var director := directors[|directors| - 1];
      var init := Directors(directors[..|directors| - 1], catalog, watched);
      if |GetDirectorMovies(catalog, director)| > 0 then init + [DirectorAchievement(director, catalog, watched)] else init
  }

  lemma {:induction false} DirectorsMembers(directors: seq<string>, catalog: seq<Movie>, watched: seq<string>)
    ensures forall a :: a in Directors(directors, catalog, watched) <==>
      exists d :: d in directors && |GetDirectorMovies(catalog, d)| > 0 && a == DirectorAchievement(d, catalog, watched)
    decreases |directors|
  {
    if directors != [] {
      var init := directors[..|directors| - 1];
      DirectorsMembers(init, catalog, watched);
      assert directors == init + [directors[|directors| - 1]];
    }
  }

  // ---------------------------------------------------------------------------
  // 4. Era collections

  datatype DecadeDef = DecadeDef(id: string, name: string, start: int, end: int)

  const DecadeTable: seq<DecadeDef> := [
    DecadeDef("1920s", "Roaring 20s", 1920, 1929),
    DecadeDef("1930s", "Golden Age", 1930, 1939),
    DecadeDef("1940s", "The Forties", 1940, 1949),
    DecadeDef("1950s", "The Fifties", 1950, 1959),
    DecadeDef("1960s", "The Sixties", 1960, 1969),
    DecadeDef("1970s", "The Seventies", 1970, 1979),
    DecadeDef("1980s", "The Eighties", 1980, 1989),
    DecadeDef("1990s", "The Nineties", 1990, 1999),
    DecadeDef("2000s", "The Aughts", 2000, 2009),
    DecadeDef("2010s", "Twenty-Tens", 2010, 2019)]

  /** An era collection: unlocked at ten movies of the decade, or at all of
      them when the catalog has fewer. */
  function EraAchievement(d: DecadeDef, catalog: seq<Movie>, watched: seq<string>): (a: Achievement)
    ensures var movies := GetMoviesByDecade(catalog, d.start, d.end);
      && a.id == "era-" + d.id && a.kind == CollectionType
      && a.progress == WatchedAmong(movies, watched) && a.progress <= |movies|
      && a.max == Min(10, |movies|)
      && (a.unlocked <==> a.progress >= a.max)
  {
    var movies := GetMoviesByDecade(catalog, d.start, d.end);
    var count := WatchedAmong(movies, watched);
    var threshold := Min(10, |movies|);
    Achievement("era-" + d.id, d.name + " Explorer", CollectionType, count, threshold, count >= threshold, None)
  }

  /** An era collection is unlocked exactly when the user has watched every
      catalog movie of the decade, or at least ten of them. */
  lemma EraUnlockedIffEnoughWatched(d: DecadeDef, catalog: seq<Movie>, watched: seq<string>)
    ensures var movies := GetMoviesByDecade(catalog, d.start, d.end);
      EraAchievement(d, catalog, watched).unlocked
      <==> (forall m :: m in movies ==> m.id in watched) || WatchedAmong(movies, watched) >= 10
  {
    FilterKeepsAll(GetMoviesByDecade(catalog, d.start, d.end), (m: Movie) => m.id in watched);
  }

  /** A decade without catalog movies yields an unlocked era with nothing to
      watch. */
  lemma EmptyDecadeIsUnlocked(d: DecadeDef, catalog: seq<Movie>, watched: seq<string>)
    requires forall m :: m in catalog ==> !(d.start <= m.year <= d.end)
    ensures var a := EraAchievement(d, catalog, watched); a.unlocked && a.max == 0 && a.progress == 0
  {
  }

  /** One era per table entry, in table order. */
  function Eras(table: seq<DecadeDef>, catalog: seq<Movie>, watched: seq<string>): (es: seq<Achievement>)
    ensures |es| == |table|
  {
    Map(table, (d: DecadeDef) => EraAchievement(d, catalog, watched))
  }

  lemma ErasFacts(table: seq<DecadeDef>, catalog: seq<Movie>, watched: seq<string>)
    ensures var es := Eras(table, catalog, watched);
      |es| == |table| && forall k :: 0 <= k < |table| ==> es[k] == EraAchievement(table[k], catalog, watched)
  {
  }

  // ---------------------------------------------------------------------------
  // 5. Streak milestones

  const StreakMilestones: seq<nat> := [3, 7, 14, 30, 50, 100]

  /** `getStreakAchievementName`. */
  function StreakAchievementName(days: int): (r: string)
    ensures |r| > 0
  {
    if days == 3 then "3-Day Streak"
    else if days == 7 then "Weekly Watcher"
    else if days == 14 then "Fortnight Cinephile"
    else if days == 30 then "Monthly Movie Buff"
    else if days == 50 then "The Committed"
    else if days == 100 then "Century Club"
    else IntToString(days) + "-Day Streak"
  }

  /** A streak milestone, judged by the longest streak. */
  function StreakAchievement(milestone: nat, longest: nat): (a: Achievement)
    ensures a.kind == StreakType && a.max == milestone
    ensures a.progress == Min(longest, milestone) && a.progress <= a.max
    ensures a.unlocked <==> longest >= milestone
  {
    Achievement("streak-" + IntToString(milestone), StreakAchievementName(milestone), StreakType,
                Min(longest, milestone), milestone, longest >= milestone, None)
  }

  /** One achievement per listed milestone within the larger of the current
      and the longest streak, in list order. */
  function Streaks(milestones: seq<nat>, current: nat, longest: nat): seq<Achievement> {
    if milestones == [] then []
    else
      var m := milestones[|milestones| - 1];
      var init := Streaks(milestones[..|milestones| - 1], current, longest);
      if m <= (if current >= longest then current else longest) then init + [StreakAchievement(m, longest)] else init
  }

  lemma {:induction false} StreaksMembers(milestones: seq<nat>, current: nat, longest: nat)
    ensures forall a :: a in Streaks(milestones, current, longest) <==>
      exists m :: m in milestones && (m <= current || m <= longest) && a == StreakAchievement(m, longest)
    decreases |milestones|
  {
    if milestones != [] {
      var init := milestones[..|milestones| - 1];
      StreaksMembers(init, current, longest);
      assert milestones == init + [milestones[|milestones| - 1]];
    }
  }

  /** The stored streak record of the user, if readable; anything else under
      the key yields no streak achievements. */
  function StreakFamily(store: Store, userId: string): seq<Achievement> {
    var key := StreakKey(userId);
    if key in store && store[key].StreakRecord? then
      Streaks(StreakMilestones, store[key].streak.currentStreak, store[key].streak.longestStreak)
    else []
  }

  // ---------------------------------------------------------------------------
  // Ordering

  /** The comparator: unlocked before locked; within each group the higher
      completion ratio first (by cross-multiplication), and entries without a
      maximum (whose ratio is 0/0) last. */
  function Precedes(a: Achievement, b: Achievement): (r: bool)
    ensures a.unlocked != b.unlocked ==> (r <==> a.unlocked)
    ensures a.unlocked == b.unlocked && a.max > 0 && b.max > 0 ==>
      (r <==> (a.progress as real) / (a.max as real) >= (b.progress as real) / (b.max as real))
  {
    RatioByCrossMultiplication(a.progress, a.max, b.progress, b.max);
    if a.unlocked != b.unlocked then a.unlocked
    else if b.max == 0 then true
    else if a.max == 0 then false
    else a.progress * b.max >= b.progress * a.max
  }

  /** Comparing two ratios with positive denominators is comparing their
      cross products. */
  lemma RatioByCrossMultiplication(p: nat, m: nat, q: nat, n: nat)
    ensures m > 0 && n > 0 ==>
      ((p as real) / (m as real) >= (q as real) / (n as real) <==> p * n >= q * m)
  {
    if m > 0 && n > 0 {
      var x := (p as real) / (m as real);
      var y := (q as real) / (n as real);
      assert x * (m as real) == p as real;
      assert y * (n as real) == q as real;
      var k := (m as real) * (n as real);
      assert k > 0.0;
      assert x * k == (p * n) as real;
      assert y * k == (q * m) as real;
      assert x >= y <==> x * k >= y * k;
    }
  }

  lemma MulMonotone(x: int, y: int, k: int)
    requires x >= y && k >= 0
    ensures x * k >= y * k
  {
    assert x * k - y * k == (x - y) * k;
  }

  lemma MulCancel(x: int, y: int, k: int)
    requires x * k >= y * k && k > 0
    ensures x >= y
  {
    assert (y - x) * k == y * k - x * k;
    if x < y {
      MulMonotone(y - x, 1, k);
    }
  }

  /** Cross-multiplied ratio comparison is transitive for positive maxima. */
  lemma RatioTransitive(ap: nat, am: nat, bp: nat, bm: nat, cp: nat, cm: nat)
    requires am > 0 && bm > 0 && cm > 0
    requires ap * bm >= bp * am && bp * cm >= cp * bm
    ensures ap * cm >= cp * am
  {
    MulMonotone(ap * bm, bp * am, cm);
    MulMonotone(bp * cm, cp * bm, am);
    assert (ap * bm) * cm == (ap * cm) * bm;
    assert (bp * am) * cm == (bp * cm) * am;
    assert (cp * bm) * am == (cp * am) * bm;
    MulCancel(ap * cm, cp * am, bm);
  }

  lemma PrecedesTotalPreorder()
    ensures TotalPreorder(Precedes)
  {
    forall a: Achievement, b: Achievement, c: Achievement | Precedes(a, b) && Precedes(b, c)
      ensures Precedes(a, c)
    {
      if a.unlocked == b.unlocked && b.unlocked == c.unlocked && c.max > 0 {
        RatioTransitive(a.progress, a.max, b.progress, b.max, c.progress, c.max);
      }
    }
  }

  // ---------------------------------------------------------------------------
  // calculateAchievements

  /** The five families in the order they are produced. */
  function Unsorted(user: User, catalog: seq<Movie>, store: Store): seq<Achievement> {
    var watched := user.watchedMovies;
    Milestones(MilestoneTable, |watched|)
    + Genres(TrackedGenres, catalog, watched)
    + Directors(TrackedDirectors, catalog, watched)
    + Eras(DecadeTable, catalog, watched)
    + StreakFamily(store, user.id)
  }

  /** The achievements of a user (none without one), ordered. */
  function AchievementsOf(user: Option<User>, catalog: seq<Movie>, store: Store): (r: seq<Achievement>)
    ensures user.None? ==> r == []
    ensures user.Some? ==> multiset(r) == multiset(Unsorted(user.value, catalog, store))
  {
    if user.None? then [] else SortBy(Unsorted(user.value, catalog, store), Precedes)
  }

  /** The ordering of the result: every unlocked achievement precedes every
      locked one; within a group the completion ratio does not increase, and
      entries without a maximum come after those with one. */
  lemma AchievementsOrdered(user: Option<User>, catalog: seq<Movie>, store: Store)
    ensures var r := AchievementsOf(user, catalog, store);
      forall i, j :: 0 <= i < j < |r| ==>
        && (r[j].unlocked ==> r[i].unlocked)
        && (r[i].unlocked == r[j].unlocked && r[i].max > 0 && r[j].max > 0 ==>
              r[i].progress * r[j].max >= r[j].progress * r[i].max)
        && (r[i].unlocked == r[j].unlocked && r[i].max == 0 ==> r[j].max == 0)
  {
    if user.Some? {
      PrecedesTotalPreorder();
      SortBySorted(Unsorted(user.value, catalog, store), Precedes);
    }
  }

  /** An achievement is in the result exactly when it is in one of the five
      families. */
  lemma AchievementsMembers(user: User, catalog: seq<Movie>, store: Store, a: Achievement)
    ensures var watched := user.watchedMovies;
      a in AchievementsOf(Some(user), catalog, store) <==>
        || a in Milestones(MilestoneTable, |watched|)
        || a in Genres(TrackedGenres, catalog, watched)
        || a in Directors(TrackedDirectors, catalog, watched)
        || a in Eras(DecadeTable, catalog, watched)
        || a in StreakFamily(store, user.id)
  {
    var all := Unsorted(user, catalog, store);
    SortByMembers(all, Precedes);
    assert a in AchievementsOf(Some(user), catalog, store) <==> a in all;
  }

  /** The genre tier level the descending threshold scan finds, and the
      threshold it stopped at (the first one when none is reached). */
  method GenreLevel(count: nat) returns (level: nat, max: nat)
    ensures level == Reached(count, GenreLevels)
    ensures max == if level == 0 then GenreLevels[0] else GenreLevels[level - 1]
  {
    var levels := GenreLevels;
    level := 0;
    max := levels[0];
    var i := |levels| - 1;
    while i >= 0
      invariant -1 <= i < |levels|
      invariant level == 0 && max == levels[0]
      invariant forall j :: i < j < |levels| ==> count < levels[j]
    {
      if count >= levels[i] {
        level := i + 1;
        max := levels[i];
        ReachedPrefix(count, levels, i + 1);
        break;
      }
      i := i - 1;
    }
    if level == 0 {
      ReachedPrefix(count, levels, 0);
    }
  }

  // One more table entry extends each family by at most that entry's achievement.

  lemma MilestonesStep(milestones: seq<MilestoneDef>, i: nat, watchedCount: nat)
    requires i < |milestones|
    ensures Milestones(milestones[..i + 1], watchedCount)
            == Milestones(milestones[..i], watchedCount) + [MilestoneAchievement(milestones[i], watchedCount)]
  {
    assert milestones[..i + 1][..i] == milestones[..i];
  }

  lemma GenresStep(genres: seq<string>, i: nat, catalog: seq<Movie>, watched: seq<string>)
    requires i < |genres|
    ensures var count := GenreCount(catalog, watched, genres[i]);
      Genres(genres[..i + 1], catalog, watched)
      == if count > 0 then Genres(genres[..i], catalog, watched) + [GenreAchievement(genres[i], count)]
         else Genres(genres[..i], catalog, watched)
  {
    assert genres[..i + 1][..i] == genres[..i];
  }

  lemma DirectorsStep(directors: seq<string>, i: nat, catalog: seq<Movie>, watched: seq<string>)
    requires i < |directors|
    ensures Directors(directors[..i + 1], catalog, watched)
      == if |GetDirectorMovies(catalog, directors[i])| > 0
         then Directors(directors[..i], catalog, watched) + [DirectorAchievement(directors[i], catalog, watched)]
         else Directors(directors[..i], catalog, watched)
  {
    assert directors[..i + 1][..i] == directors[..i];
  }

  lemma ErasStep(decades: seq<DecadeDef>, i: nat, catalog: seq<Movie>, watched: seq<string>)
    requires i < |decades|
    ensures Eras(decades[..i + 1], catalog, watched)
            == Eras(decades[..i], catalog, watched) + [EraAchievement(decades[i], catalog, watched)]
  {
    MapStep(decades, i, (d: DecadeDef) => EraAchievement(d, catalog, watched));
  }

  lemma StreaksStep(milestones: seq<nat>, i: nat, current: nat, longest: nat)
    requires i < |milestones|
    ensures Streaks(milestones[..i + 1], current, longest)
      == if milestones[i] <= (if current >= longest then current else longest)
         then Streaks(milestones[..i], current, longest) + [StreakAchievement(milestones[i], longest)]
         else Streaks(milestones[..i], current, longest)
  {
    assert milestones[..i + 1][..i] == milestones[..i];
  }

  lemma AppendAssoc<T>(a: seq<T>, b: seq<T>, x: T)
    ensures a + (b + [x]) == (a + b) + [x]
  {
  }

  /** `calculateAchievements`: builds the five families one push at a time and
      sorts them with the comparator. */
  method CalculateAchievements(user: Option<User>, catalog: seq<Movie>, store: Store) returns (r: seq<Achievement>)
    ensures r == AchievementsOf(user, catalog, store)
  {
    if user.None? {
      return [];
    }
    var u := user.value;
    var watched := u.watchedMovies;
    var achievements: seq<Achievement> := [];
    achievements := PushMilestones(achievements, MilestoneTable, |watched|);
    assert achievements == Milestones(MilestoneTable, |watched|);
    achievements := PushGenres(achievements, TrackedGenres, catalog, watched);
    achievements := PushDirectors(achievements, TrackedDirectors, catalog, watched);
    achievements := PushEras(achievements, DecadeTable, catalog, watched);
    achievements := PushStreaks(achievements, store, u.id);
    assert achievements == Unsorted(u, catalog, store);
    r := SortBy(achievements, Precedes);
  }

  /** Step 1 of `calculateAchievements`: a milestone per table entry. */
  method PushMilestones(achievements: seq<Achievement>, milestones: seq<MilestoneDef>, watchedCount: nat) returns (r: seq<Achievement>)
    ensures r == achievements + Milestones(milestones, watchedCount)
  {
    r := achievements;
    for i := 0 to |milestones|
      invariant r == achievements + Milestones(milestones[..i], watchedCount)
    {
      var d := milestones[i];
      MilestonesStep(milestones, i, watchedCount);
      AppendAssoc(achievements, Milestones(milestones[..i], watchedCount), MilestoneAchievement(d, watchedCount));
      r := r + [Achievement(d.id, d.name, MilestoneType, Min(watchedCount, d.max), d.max, watchedCount >= d.max, None)];
    }
    assert milestones[..|milestones|] == milestones;
  }

  /** Step 2: a tier per tracked genre the user has watched. */
  method PushGenres(achievements: seq<Achievement>, genres: seq<string>, catalog: seq<Movie>, watched: seq<string>) returns (r: seq<Achievement>)
    ensures r == achievements + Genres(genres, catalog, watched)
  {
    r := achievements;
    for i := 0 to |genres|
      invariant r == achievements + Genres(genres[..i], catalog, watched)
    {
      var genre := genres[i];
      GenresStep(genres, i, catalog, watched);
      var genreMovies := GetMoviesByGenre(catalog, genre);
      var genreCount := WatchedAmong(genreMovies, watched);
      var level, max := GenreLevel(genreCount);
      if genreCount > 0 {
        var nextLevel := if level < |GenreLevels| then GenreLevels[level] else max;
        AppendAssoc(achievements, Genres(genres[..i], catalog, watched), GenreAchievement(genre, genreCount));
        r := r + [Achievement(GenreId(genre), genre + " Aficionado", CollectionType,
                              genreCount, nextLevel, level > 0, Some(level))];
      }
    }
    assert genres[..|genres|] == genres;
  }

  /** Step 3: a collection per tracked director with catalog movies. */
  method PushDirectors(achievements: seq<Achievement>, directors: seq<string>, catalog: seq<Movie>, watched: seq<string>) returns (r: seq<Achievement>)
    ensures r == achievements + Directors(directors, catalog, watched)
  {
    r := achievements;
    for i := 0 to |directors|
      invariant r == achievements + Directors(directors[..i], catalog, watched)
    {
      var director := directors[i];
      DirectorsStep(directors, i, catalog, watched);
      var directorMovies := GetDirectorMovies(catalog, director);
      var directorCount := WatchedAmong(directorMovies, watched);
      var directorTotal := |directorMovies|;
      if directorTotal > 0 {
        var entry := Achievement(DirectorId(director), DirectorName(director), CollectionType,
                                 directorCount, directorTotal, directorCount == directorTotal && directorTotal > 0, None);
        assert entry == DirectorAchievement(director, catalog, watched);
        AppendAssoc(achievements, Directors(directors[..i], catalog, watched), entry);
        r := r + [entry];
      }
    }
    assert directors[..|directors|] == directors;
  }

  /** Step 4: an era per decade of the table. */
  method PushEras(achievements: seq<Achievement>, decades: seq<DecadeDef>, catalog: seq<Movie>, watched: seq<string>) returns (r: seq<Achievement>)
    ensures r == achievements + Eras(decades, catalog, watched)
  {
    r := achievements;
    for i := 0 to |decades|
      invariant r == achievements + Eras(decades[..i], catalog, watched)
    {
      var decade := decades[i];
      ErasStep(decades, i, catalog, watched);
      AppendAssoc(achievements, Eras(decades[..i], catalog, watched), EraAchievement(decade, catalog, watched));
      var decadeMovies := GetMoviesByDecade(catalog, decade.start, decade.end);
      var decadeCount := WatchedAmong(decadeMovies, watched);
      var unlockThreshold := Min(10, |decadeMovies|);
      var entry := Achievement("era-" + decade.id, decade.name + " Explorer", CollectionType,
                               decadeCount, unlockThreshold, decadeCount >= unlockThreshold, None);
      r := r + [entry];
    }
    assert decades[..|decades|] == decades;
  }

  /** Step 5: the streak milestones, when a streak record is readable. */
  method PushStreaks(achievements: seq<Achievement>, store: Store, userId: string) returns (r: seq<Achievement>)
    ensures r == achievements + StreakFamily(store, userId)
  {
    r := achievements;
    var key := StreakKey(userId);
    if key in store && store[key].StreakRecord? {
      var data := store[key].streak;
      var currentStreak := data.currentStreak;
      var longestStreak := data.longestStreak;
      var streakMilestones := StreakMilestones;
      for i := 0 to |streakMilestones|
        invariant r == achievements + Streaks(streakMilestones[..i], currentStreak, longestStreak)
      {
        var milestone := streakMilestones[i];
        StreaksStep(streakMilestones, i, currentStreak, longestStreak);
        if milestone <= (if currentStreak >= longestStreak then currentStreak else longestStreak) {
          AppendAssoc(achievements, Streaks(streakMilestones[..i], currentStreak, longestStreak),
                      StreakAchievement(milestone, longestStreak));
          r := r + [StreakAchievement(milestone, longestStreak)];
        }
      }
      assert streakMilestones[..|streakMilestones|] == streakMilestones;
    }
  }

  // ---------------------------------------------------------------------------
  // getGenreIcon

  /** `getGenreIcon`: the genre's emoji, a clapperboard for any other genre. */
  function GenreIcon(genre: string): (r: string)
    ensures |r| > 0
  {
    if genre == "Drama" then "\U{1F3AD}"
    else if genre == "Comedy" then "\U{1F602}"
    else if genre == "Action" then "\U{1F4A5}"
    else if genre == "Romance" then "\U{2764}\U{FE0F}"
    else if genre == "Thriller" then "\U{1F630}"
    else if genre == "Horror" then "\U{1F47B}"
    else if genre == "Sci-Fi" then "\U{1F680}"
    else if genre == "Documentary" then "\U{1F4FD}\U{FE0F}"
    else if genre == "Western" then "\U{1F920}"
    else if genre == "Adventure" then "\U{1F5FA}\U{FE0F}"
    else if genre == "Crime" then "\U{1F52A}"
    else if genre == "Fantasy" then "\U{1F9D9}"
    else if genre == "Animation" then "\U{1F9F8}"
    else if genre == "Family" then "\U{1F468}\U{200D}\U{1F469}\U{200D}\U{1F467}\U{200D}\U{1F466}"
    else if genre == "Mystery" then "\U{1F50D}"
    else if genre == "Biography" then "\U{1F4DA}"
    else if genre == "Music" then "\U{1F3B5}"
    else if genre == "War" then "\U{2694}\U{FE0F}"
    else if genre == "History" then "\U{1F4DC}"
    else DefaultIcon
  }

  const DefaultIcon: string := "\U{1F3AC}"

  /** Every tracked genre has an icon of its own. */
  lemma TrackedGenresHaveIcons()
    ensures forall g :: g in TrackedGenres ==> GenreIcon(g) != DefaultIcon
  {
  }
}
