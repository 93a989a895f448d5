/**
 * The achievement-based recommender (src/lib/achievement-recommendations.ts):
 * unwatched catalog movies that bring a locked, started genre, director or
 * era achievement closer, each with the reasons it was suggested for and a
 * score; and the achievement that watching one movie would unlock or advance.
 */
module AchievementRecommendations {
  import opened Wrappers
  import opened JsStrings
  import opened JsArrays
  import opened Types
  import opened Movies
  import opened Achievements

  datatype ReasonKind = AchievementReason | StreakReason | CollectionReason | DirectorReason | EraReason

  /** Why a movie is suggested; the display message is not modelled. */
  datatype Reason = Reason(kind: ReasonKind, achievementId: string, priority: int)

  datatype Recommendation = Recommendation(movie: Movie, reasons: seq<Reason>, score: int)

  // ---------------------------------------------------------------------------
  // The addRecommendation closure

  /** Position of the movie's recommendation (the `find` on the movie id). */
  function MovieAt(recs: seq<Recommendation>, id: string): int {
    FindIndex(recs, (rec: Recommendation) => rec.movie.id == id)
  }

  predicate SamePair(x: Reason, y: Reason) {
    x.kind == y.kind && x.achievementId == y.achievementId
  }

  /** Position of a reason of the same type and achievement (the `findIndex`). */
  function PairAt(reasons: seq<Reason>, reason: Reason): int {
    FindIndex(reasons, (x: Reason) => SamePair(x, reason))
  }

  predicate HasMovie(recs: seq<Recommendation>, id: string) {
    MovieAt(recs, id) >= 0
  }

  function RecFor(recs: seq<Recommendation>, id: string): Option<Recommendation> {
    var k := MovieAt(recs, id);
    if k < 0 then None else Some(recs[k])
  }

  /** The movie's score, 0 while it has no recommendation. */
  function Score(recs: seq<Recommendation>, id: string): int {
    match RecFor(recs, id)
    case None => 0
    case Some(rec) => rec.score
  }

  function ReasonsFor(recs: seq<Recommendation>, id: string): seq<Reason> {
    match RecFor(recs, id)
    case None => []
    case Some(rec) => rec.reasons
  }

  /** A reason with a new (type, achievement) pair is added and its priority
      is added to the score; a repeated pair with a higher priority replaces
      the old reason, and because the score difference is read after the
      overwrite the score stays as it was. */
  function AddRecommendation(recs: seq<Recommendation>, movie: Movie, reason: Reason): (r: seq<Recommendation>)
    ensures |recs| <= |r| <= |recs| + 1
    ensures forall j :: 0 <= j < |recs| ==> r[j].movie == recs[j].movie
    ensures |r| == |recs| + 1 ==> r[|recs|].movie == movie
    ensures forall j, x :: 0 <= j < |r| && x in r[j].reasons ==> x == reason || (j < |recs| && x in recs[j].reasons)
  {
    var k := MovieAt(recs, movie.id);
    if k < 0 then
      recs + [Recommendation(movie, [reason], reason.priority)]
    else
      var rec := recs[k];
      var i := PairAt(rec.reasons, reason);
      var updated :=
        if i < 0 then rec.(reasons := rec.reasons + [reason], score := rec.score + reason.priority)
        else if rec.reasons[i].priority < reason.priority then
          var reasons := rec.reasons[i := reason];
          rec.(reasons := reasons, score := rec.score + (reason.priority - reasons[i].priority))
        else rec;
      recs[k := updated]
  }

  /** Seen per movie id: the movie gains a recommendation holding the
      reason's pair, no other movie's recommendation changes, the movie's
      reasons are its old ones with the new pair appended or the pair's slot
      overwritten in place, and the score grows by the priority exactly when
      the pair is new. */
  lemma AddRecommendationEffect(recs: seq<Recommendation>, movie: Movie, reason: Reason)
    ensures var r := AddRecommendation(recs, movie, reason);
      && (forall id :: HasMovie(r, id) <==> HasMovie(recs, id) || id == movie.id)
      && (forall id :: id != movie.id ==> RecFor(r, id) == RecFor(recs, id))
      && PairAt(ReasonsFor(r, movie.id), reason) >= 0
      && (var before := ReasonsFor(recs, movie.id);
          var i := PairAt(before, reason);
          var after := ReasonsFor(r, movie.id);
          && (i < 0 ==> after == before + [reason] && PairAt(after, reason) == |before|)
          && (i >= 0 ==> |after| == |before| && after == before[i := after[i]] && PairAt(after, reason) == i)
          && after[PairAt(after, reason)]
             == if i < 0 || before[i].priority < reason.priority then reason else before[i])
      && Score(r, movie.id)
         == Score(recs, movie.id) + if PairAt(ReasonsFor(recs, movie.id), reason) >= 0 then 0 else reason.priority
  {
    var k := MovieAt(recs, movie.id);
    if k < 0 {
      var added := Recommendation(movie, [reason], reason.priority);
      MovieAtAppend(recs, added);
      assert PairAt([reason], reason) == 0;
    } else {
      var rec := recs[k];
      var i := PairAt(rec.reasons, reason);
      var r := AddRecommendation(recs, movie, reason);
      assert r == recs[k := r[k]] && r[k].movie == rec.movie;
      MovieAtUpdate(recs, k, r[k]);
      PairAtAfter(rec.reasons, reason);
    }
  }

  lemma MovieAtAppend(recs: seq<Recommendation>, added: Recommendation)
    ensures forall id ::
      MovieAt(recs + [added], id) == (if MovieAt(recs, id) >= 0 then MovieAt(recs, id) else if id == added.movie.id then |recs| else -1)
  {
    forall id ensures MovieAt(recs + [added], id)
      == (if MovieAt(recs, id) >= 0 then MovieAt(recs, id) else if id == added.movie.id then |recs| else -1)
    {
      FindIndexAppend(recs, added, (rec: Recommendation) => rec.movie.id == id);
    }
  }

  lemma MovieAtUpdate(recs: seq<Recommendation>, k: nat, updated: Recommendation)
    requires k < |recs| && updated.movie == recs[k].movie
    ensures forall id :: MovieAt(recs[k := updated], id) == MovieAt(recs, id)
  {
    forall id ensures MovieAt(recs[k := updated], id) == MovieAt(recs, id) {
      FindIndexAgree(recs[k := updated], recs, (rec: Recommendation) => rec.movie.id == id);
    }
  }

  /** After appending the reason, or replacing one of the same pair by it,
      the pair is present. */
  lemma PairAtAfter(reasons: seq<Reason>, reason: Reason)
    ensures PairAt(reasons + [reason], reason) >= 0
    ensures PairAt(reasons, reason) < 0 ==> PairAt(reasons + [reason], reason) == |reasons|
    ensures forall i :: 0 <= i < |reasons| && SamePair(reasons[i], reason) ==>
      PairAt(reasons[i := reason], reason) == PairAt(reasons, reason) >= 0
  {
    FindIndexAppend(reasons, reason, (x: Reason) => SamePair(x, reason));
    forall i | 0 <= i < |reasons| && SamePair(reasons[i], reason)
      ensures PairAt(reasons[i := reason], reason) == PairAt(reasons, reason) >= 0
    {
      FindIndexAgree(reasons[i := reason], reasons, (x: Reason) => SamePair(x, reason));
    }
  }

  /** Each movie has at most one recommendation, and each recommendation at
      most one reason per (type, achievement) pair. */
  predicate WellFormed(recs: seq<Recommendation>) {
    && (forall i, j :: 0 <= i < j < |recs| ==> recs[i].movie.id != recs[j].movie.id)
    && (forall k :: 0 <= k < |recs| ==> UniquePairs(recs[k].reasons))
  }

  predicate UniquePairs(reasons: seq<Reason>) {
    forall i, j :: 0 <= i < j < |reasons| ==> !SamePair(reasons[i], reasons[j])
  }

  lemma AddRecommendationWellFormed(recs: seq<Recommendation>, movie: Movie, reason: Reason)
    requires WellFormed(recs)
    ensures WellFormed(AddRecommendation(recs, movie, reason))
  {
    var r := AddRecommendation(recs, movie, reason);
    var k := MovieAt(recs, movie.id);
    if k < 0 {
      assert r == recs + [Recommendation(movie, [reason], reason.priority)];
    } else {
      var rec := recs[k];
      var i := PairAt(rec.reasons, reason);
      if i < 0 {
        assert r[k].reasons == rec.reasons + [reason];
      } else if rec.reasons[i].priority < reason.priority {
        var reasons := rec.reasons[i := reason];
        assert r[k].reasons == reasons;
        forall a, b | 0 <= a < b < |reasons| ensures !SamePair(reasons[a], reasons[b]) {
          assert SamePair(reasons[a], rec.reasons[a]) && SamePair(reasons[b], rec.reasons[b]);
        }
      }
    }
  }

  // ---------------------------------------------------------------------------
  // Candidate selection per achievement family

  datatype Family = GenreFamily | DirectorFamily | EraFamily

  function Prefix(f: Family): string {
    match f
    case GenreFamily => "genre-"
    case DirectorFamily => "director-"
    case EraFamily => "era-"
  }

  function KindOf(f: Family): ReasonKind {
    match f
    case GenreFamily => CollectionReason
    case DirectorFamily => DirectorReason
    case EraFamily => EraReason
  }

  /** The family's filter: the id prefix, still locked and already started. */
  predicate Eligible(f: Family, a: Achievement) {
    Prefix(f) <= a.id && !a.unlocked && a.progress > 0
  }

  function EligibleAmong(achievements: seq<Achievement>, f: Family): (r: seq<Achievement>)
    ensures forall a :: a in r <==> a in achievements && Eligible(f, a)
  {
    Filter(achievements, (a: Achievement) => Eligible(f, a))
  }

  predicate IsLineTerminator(c: char) {
    c == '\n' || c == '\r' || c == '\U{2028}' || c == '\U{2029}'
  }

  /** The capture of `^prefix(.+)$`: a non-empty rest without line breaks. */
  function RestAfter(prefix: string, id: string): (r: Option<string>)
    ensures r.Some? <==> prefix <= id && |id| > |prefix| && forall k :: |prefix| <= k < |id| ==> !IsLineTerminator(id[k])
    ensures r.Some? ==> id == prefix + r.value
  {
    if prefix <= id && |id| > |prefix| && forall k :: |prefix| <= k < |id| ==> !IsLineTerminator(id[k]) then
      assert id == prefix + id[|prefix|..];
      Some(id[|prefix|..])
    else None
  }

  /** The capture of `^era-(\d{4})s$`. */
  function EraDigits(id: string): (r: Option<string>)
    ensures r.Some? ==> |r.value| == 4 && id == "era-" + r.value + "s"
    ensures r.Some? ==> forall k :: 0 <= k < 4 ==> IsDigit(r.value[k])
  {
    if |id| == 9 && "era-" <= id && id[8] == 's' && forall k :: 4 <= k < 8 ==> IsDigit(id[k]) then
      assert id == "era-" + id[4..8] + "s";
      Some(id[4..8])
    else None
  }

  /** The director's name rebuilt from its id slug: split on '-', each part
      capitalised, joined with spaces. */
  function DirectorFromSlug(slug: string): string {
    Join(CapitalizeAll(Split(slug, "-")), " ")
  }

  function CapitalizeAll(parts: seq<string>): (r: seq<string>)
    ensures |r| == |parts| && forall i :: 0 <= i < |parts| ==> r[i] == Capitalize(parts[i])
  {
    seq(|parts|, i requires 0 <= i < |parts| => Capitalize(parts[i]))
  }

  /** The first two movies of a pool (`slice(0, 2)`). */
  function FirstTwo(pool: seq<Movie>): (r: seq<Movie>)
    ensures r <= pool && |r| == (if |pool| < 2 then |pool| else 2)
  {
    Take(pool, 2)
  }

  /** Up to two unwatched catalog movies that list the genre, the first ones
      in catalog order. */
  function GenreCandidates(genre: string, catalog: seq<Movie>, watched: seq<string>): (r: seq<Movie>)
    ensures forall m :: m in r ==> m in catalog && m.id !in watched && genre in m.genre
    ensures var pool := UnwatchedAmong(GetMoviesByGenre(catalog, genre), watched);
      r <= pool && |r| == (if |pool| < 2 then |pool| else 2)
  {
    FirstTwo(UnwatchedAmong(GetMoviesByGenre(catalog, genre), watched))
  }

  /** Up to two unwatched catalog movies from the ten years after `start`,
      the first ones in catalog order. */
  function EraCandidates(start: int, catalog: seq<Movie>, watched: seq<string>): (r: seq<Movie>)
    ensures forall m :: m in r ==> m in catalog && m.id !in watched && start <= m.year <= start + 9
    ensures var pool := UnwatchedAmong(GetMoviesByDecade(catalog, start, start + 9), watched);
      r <= pool && |r| == (if |pool| < 2 then |pool| else 2)
  {
    FirstTwo(UnwatchedAmong(GetMoviesByDecade(catalog, start, start + 9), watched))
  }

  /** The movies one achievement suggests: up to two unwatched movies of the
      genre (its name rebuilt by capitalising only the slug's first letter)
      or of the decade, and every unwatched movie of the director. An id the
      family's pattern does not match suggests nothing. */
  function Candidates(f: Family, a: Achievement, catalog: seq<Movie>, watched: seq<string>): (r: seq<Movie>)
    ensures forall m :: m in r ==> m in catalog && m.id !in watched
    ensures f != DirectorFamily ==> |r| <= 2
    ensures f == GenreFamily && RestAfter("genre-", a.id).None? ==> r == []
    ensures f == GenreFamily && RestAfter("genre-", a.id).Some? ==>
      var genre := Capitalize(RestAfter("genre-", a.id).value);
      var pool := UnwatchedAmong(GetMoviesByGenre(catalog, genre), watched);
      && (forall m :: m in r ==> genre in m.genre)
      && r <= pool && |r| == (if |pool| < 2 then |pool| else 2)
    ensures f == DirectorFamily && RestAfter("director-", a.id).None? ==> r == []
    ensures f == DirectorFamily && RestAfter("director-", a.id).Some? ==>
      r == UnwatchedAmong(GetDirectorMovies(catalog, DirectorFromSlug(RestAfter("director-", a.id).value)), watched)
    ensures f == EraFamily && (EraDigits(a.id).None? || ParseInt(EraDigits(a.id).value).None?) ==> r == []
    ensures f == EraFamily && EraDigits(a.id).Some? && ParseInt(EraDigits(a.id).value).Some? ==>
      var start := ParseInt(EraDigits(a.id).value).value;
      var pool := UnwatchedAmong(GetMoviesByDecade(catalog, start, start + 9), watched);
      && (forall m :: m in r ==> start <= m.year <= start + 9)
      && r <= pool && |r| == (if |pool| < 2 then |pool| else 2)
  {
    match f
    case GenreFamily =>
      (match RestAfter("genre-", a.id)
       case None => []
       case Some(slug) => GenreCandidates(Capitalize(slug), catalog, watched))
    case DirectorFamily =>
      (match RestAfter("director-", a.id)
       case None => []
       case Some(slug) => UnwatchedAmong(GetDirectorMovies(catalog, DirectorFromSlug(slug)), watched))
    case EraFamily =>
      (match EraDigits(a.id)
       case None => []
       case Some(digits) =>
         match ParseInt(digits)
         case None => []
         case Some(start) => EraCandidates(start, catalog, watched))
  }

  /** A priority band by completion: `top` from `hi` percent, one less from
      `mid`, two less from `lo`, three less below. The percentage
      `progress / max * 100` is compared by cross-multiplication. */
  function Band(progress: nat, max: nat, hi: nat, mid: nat, lo: nat, top: int): int {
    if 100 * progress >= hi * max then top
    else if 100 * progress >= mid * max then top - 1
    else if 100 * progress >= lo * max then top - 2
    else top - 3
  }

  /** Genre 5/4/3/2 at 80/60/40 percent, director 6/5/4/3 at 75/50/25, era
      4/3/2/1 at 80/60/40. */
  function Priority(f: Family, a: Achievement): (r: int)
    ensures f == GenreFamily ==> 2 <= r <= 5
    ensures f == DirectorFamily ==> 3 <= r <= 6
    ensures f == EraFamily ==> 1 <= r <= 4
  {
    match f
    case GenreFamily => Band(a.progress, a.max, 80, 60, 40, 5)
    case DirectorFamily => Band(a.progress, a.max, 75, 50, 25, 6)
    case EraFamily => Band(a.progress, a.max, 80, 60, 40, 4)
  }

  /** A more complete achievement never gets a lower priority. */
  lemma PriorityMonotone(f: Family, a: Achievement, b: Achievement)
    requires a.max > 0 && b.max > 0
    requires a.progress * b.max >= b.progress * a.max
    ensures Priority(f, a) >= Priority(f, b)
  {
    match f
    case GenreFamily => BandMonotone(a.progress, a.max, b.progress, b.max, 80, 60, 40, 5);
    case DirectorFamily => BandMonotone(a.progress, a.max, b.progress, b.max, 75, 50, 25, 6);
    case EraFamily => BandMonotone(a.progress, a.max, b.progress, b.max, 80, 60, 40, 4);
  }

  lemma BandMonotone(ap: nat, am: nat, bp: nat, bm: nat, hi: nat, mid: nat, lo: nat, top: int)
    requires am > 0 && bm > 0 && ap * bm >= bp * am
    ensures Band(ap, am, hi, mid, lo, top) >= Band(bp, bm, hi, mid, lo, top)
  {
    if 100 * bp >= hi * bm { BandStep(ap, am, bp, bm, hi); }
    if 100 * bp >= mid * bm { BandStep(ap, am, bp, bm, mid); }
    if 100 * bp >= lo * bm { BandStep(ap, am, bp, bm, lo); }
  }

  /** Reaching a percentage carries over to a larger ratio. */
  lemma BandStep(ap: nat, am: nat, bp: nat, bm: nat, c: nat)
    requires am > 0 && bm > 0 && ap * bm >= bp * am && 100 * bp >= c * bm
    ensures 100 * ap >= c * am
  {
    MulMonotone(100 * bp, c * bm, am);
    MulMonotone(ap * bm, bp * am, 100);
    assert (100 * ap) * bm == 100 * (ap * bm);
    assert (c * am) * bm == (c * bm) * am;
    assert 100 * (bp * am) == (100 * bp) * am;
    MulCancel(100 * ap, c * am, bm);
  }

  function ReasonFor(f: Family, a: Achievement): Reason {
    Reason(KindOf(f), a.id, Priority(f, a))
  }

  /** The `forEach` over one movie list, adding each with the same reason. */
  function AddAll(recs: seq<Recommendation>, movies: seq<Movie>, reason: Reason): seq<Recommendation> {
    if movies == [] then recs
    else AddRecommendation(AddAll(recs, movies[..|movies| - 1], reason), movies[|movies| - 1], reason)
  }

  /** One family's pass over its eligible achievements. */
  function Pass(recs: seq<Recommendation>, achievements: seq<Achievement>, f: Family, catalog: seq<Movie>, watched: seq<string>): seq<Recommendation> {
    if achievements == [] then recs
    else
      var a := achievements[|achievements| - 1];
      AddAll(Pass(recs, achievements[..|achievements| - 1], f, catalog, watched), Candidates(f, a, catalog, watched), ReasonFor(f, a))
  }

  /** The genre, director and era passes in turn, starting from nothing. */
  function Collected(achievements: seq<Achievement>, catalog: seq<Movie>, watched: seq<string>): seq<Recommendation> {
    var genres := Pass([], EligibleAmong(achievements, GenreFamily), GenreFamily, catalog, watched);
    var directors := Pass(genres, EligibleAmong(achievements, DirectorFamily), DirectorFamily, catalog, watched);
    Pass(directors, EligibleAmong(achievements, EraFamily), EraFamily, catalog, watched)
  }

  /** The comparator `b.score - a.score`: higher scores first. */
  function ScoreAtLeast(a: Recommendation, b: Recommendation): bool {
    a.score >= b.score
  }

  lemma ScoreAtLeastTotalPreorder()
    ensures TotalPreorder(ScoreAtLeast)
  {
  }

  /** The collected recommendations in descending score order (equal scores
      keep their order), cut to `count`. */
  function RankedFrom(achievements: seq<Achievement>, catalog: seq<Movie>, watched: seq<string>, count: int): (r: seq<Recommendation>)
    ensures count >= 0 ==> |r| <= count
  {
    Take(SortBy(Collected(achievements, catalog, watched), ScoreAtLeast), count)
  }

  /** `getAchievementBasedRecommendations`: nothing without a user, otherwise
      the ranking drawn from the user's achievements. */
  function AchievementRecommendations(user: Option<User>, catalog: seq<Movie>, store: Store, count: int): (r: seq<Recommendation>)
    ensures user.None? ==> r == []
    ensures count >= 0 ==> |r| <= count
  {
    if user.None? then []
    else RankedFrom(AchievementsOf(user, catalog, store), catalog, user.value.watchedMovies, count)
  }

  // ---------------------------------------------------------------------------
  // What the passes preserve

  lemma {:induction false} AddAllWellFormed(recs: seq<Recommendation>, movies: seq<Movie>, reason: Reason)
    requires WellFormed(recs)
    ensures WellFormed(AddAll(recs, movies, reason))
    decreases |movies|
  {
    if movies != [] {
      AddAllWellFormed(recs, movies[..|movies| - 1], reason);
      AddRecommendationWellFormed(AddAll(recs, movies[..|movies| - 1], reason), movies[|movies| - 1], reason);
    }
  }

  lemma {:induction false} PassWellFormed(recs: seq<Recommendation>, achievements: seq<Achievement>, f: Family, catalog: seq<Movie>, watched: seq<string>)
    requires WellFormed(recs)
    ensures WellFormed(Pass(recs, achievements, f, catalog, watched))
    decreases |achievements|
  {
    if achievements != [] {
      var a := achievements[|achievements| - 1];
      PassWellFormed(recs, achievements[..|achievements| - 1], f, catalog, watched);
      AddAllWellFormed(Pass(recs, achievements[..|achievements| - 1], f, catalog, watched), Candidates(f, a, catalog, watched), ReasonFor(f, a));
    }
  }

  /** The collected list never holds a movie twice, nor a reason pair twice
      for one movie. */
  lemma CollectedWellFormed(achievements: seq<Achievement>, catalog: seq<Movie>, watched: seq<string>)
    ensures WellFormed(Collected(achievements, catalog, watched))
  {
    var genres := Pass([], EligibleAmong(achievements, GenreFamily), GenreFamily, catalog, watched);
    var directors := Pass(genres, EligibleAmong(achievements, DirectorFamily), DirectorFamily, catalog, watched);
    PassWellFormed([], EligibleAmong(achievements, GenreFamily), GenreFamily, catalog, watched);
    PassWellFormed(genres, EligibleAmong(achievements, DirectorFamily), DirectorFamily, catalog, watched);
    PassWellFormed(directors, EligibleAmong(achievements, EraFamily), EraFamily, catalog, watched);
  }

  /** Every recommended movie is an unwatched catalog movie. */
  predicate Unwatched(recs: seq<Recommendation>, catalog: seq<Movie>, watched: seq<string>) {
    forall k :: 0 <= k < |recs| ==> recs[k].movie in catalog && recs[k].movie.id !in watched
  }

  /** Every reason comes from an eligible achievement, with that family's
      type and priority band. */
  ghost predicate Justified(recs: seq<Recommendation>, achievements: seq<Achievement>) {
    forall k, x :: 0 <= k < |recs| && x in recs[k].reasons ==>
      exists f, a :: a in achievements && Eligible(f, a) && x == ReasonFor(f, a)
  }

  lemma {:induction false} AddAllKeeps(recs: seq<Recommendation>, movies: seq<Movie>, reason: Reason,
                                       catalog: seq<Movie>, watched: seq<string>, achievements: seq<Achievement>)
    requires Unwatched(recs, catalog, watched) && Justified(recs, achievements)
    requires forall m :: m in movies ==> m in catalog && m.id !in watched
    requires movies != [] ==> exists f, a :: a in achievements && Eligible(f, a) && reason == ReasonFor(f, a)
    ensures Unwatched(AddAll(recs, movies, reason), catalog, watched)
    ensures Justified(AddAll(recs, movies, reason), achievements)
    decreases |movies|
  {
    if movies != [] {
      var prefix := movies[..|movies| - 1];
      assert forall m :: m in prefix ==> m in movies;
      AddAllKeeps(recs, prefix, reason, catalog, watched, achievements);
      var before := AddAll(recs, prefix, reason);
      var r := AddRecommendation(before, movies[|movies| - 1], reason);
      assert r == AddAll(recs, movies, reason);
      forall k | 0 <= k < |r| ensures r[k].movie in catalog && r[k].movie.id !in watched {
        if k < |before| { assert r[k].movie == before[k].movie; }
      }
    }
  }

  lemma {:induction false} PassKeeps(recs: seq<Recommendation>, achievements: seq<Achievement>, f: Family,
                                     catalog: seq<Movie>, watched: seq<string>, all: seq<Achievement>)
    requires Unwatched(recs, catalog, watched) && Justified(recs, all)
    requires forall a :: a in achievements ==> a in all && Eligible(f, a)
    ensures Unwatched(Pass(recs, achievements, f, catalog, watched), catalog, watched)
    ensures Justified(Pass(recs, achievements, f, catalog, watched), all)
    decreases |achievements|
  {
    if achievements != [] {
      var a := achievements[|achievements| - 1];
      var prefix := achievements[..|achievements| - 1];
      assert forall b :: b in prefix ==> b in achievements;
      PassKeeps(recs, prefix, f, catalog, watched, all);
      var before := Pass(recs, prefix, f, catalog, watched);
      var movies := Candidates(f, a, catalog, watched);
      assert a in all && Eligible(f, a);
      AddAllKeeps(before, movies, ReasonFor(f, a), catalog, watched, all);
      assert Pass(recs, achievements, f, catalog, watched) == AddAll(before, movies, ReasonFor(f, a));
    }
  }

  /** `Pass` over one more achievement is one more `AddAll`. */
  lemma PassStep(recs: seq<Recommendation>, achievements: seq<Achievement>, i: nat, f: Family,
                 catalog: seq<Movie>, watched: seq<string>)
    requires i < |achievements|
    ensures Pass(recs, achievements[..i + 1], f, catalog, watched)
         == AddAll(Pass(recs, achievements[..i], f, catalog, watched),
                   Candidates(f, achievements[i], catalog, watched), ReasonFor(f, achievements[i]))
  {
    assert achievements[..i + 1][..i] == achievements[..i];
  }

  lemma CollectedKeeps(achievements: seq<Achievement>, catalog: seq<Movie>, watched: seq<string>)
    ensures Unwatched(Collected(achievements, catalog, watched), catalog, watched)
    ensures Justified(Collected(achievements, catalog, watched), achievements)
  {
    var genres := Pass([], EligibleAmong(achievements, GenreFamily), GenreFamily, catalog, watched);
    var directors := Pass(genres, EligibleAmong(achievements, DirectorFamily), DirectorFamily, catalog, watched);
    PassKeeps([], EligibleAmong(achievements, GenreFamily), GenreFamily, catalog, watched, achievements);
    PassKeeps(genres, EligibleAmong(achievements, DirectorFamily), DirectorFamily, catalog, watched, achievements);
    PassKeeps(directors, EligibleAmong(achievements, EraFamily), EraFamily, catalog, watched, achievements);
  }

  /** The ranking: scores non-increasing, only unwatched catalog movies, and
      every reason from a locked, started genre, director or era achievement
      with that family's band. */
  lemma RankedFacts(achievements: seq<Achievement>, catalog: seq<Movie>, watched: seq<string>, count: int)
    ensures var r := RankedFrom(achievements, catalog, watched, count);
      && (forall i, j :: 0 <= i < j < |r| ==> r[i].score >= r[j].score)
      && (forall rec :: rec in r ==> rec.movie in catalog && rec.movie.id !in watched)
      && (forall rec, x :: rec in r && x in rec.reasons ==>
            exists f, a :: a in achievements && Eligible(f, a) && x == ReasonFor(f, a))
  {
    var recs := Collected(achievements, catalog, watched);
    var sorted := SortBy(recs, ScoreAtLeast);
    var r := Take(sorted, count);
    ScoreAtLeastTotalPreorder();
    SortBySorted(recs, ScoreAtLeast);
    SortByMembers(recs, ScoreAtLeast);
    CollectedKeeps(achievements, catalog, watched);
    forall rec | rec in r ensures rec in recs {
      assert rec in sorted;
    }
    forall rec | rec in recs ensures rec.movie in catalog && rec.movie.id !in watched {
      var k :| 0 <= k < |recs| && recs[k] == rec;
    }
    forall rec, x | rec in recs && x in rec.reasons
      ensures exists f, a :: a in achievements && Eligible(f, a) && x == ReasonFor(f, a)
    {
      var k :| 0 <= k < |recs| && recs[k] == rec;
    }
  }

  // ---------------------------------------------------------------------------
  // The recommender as the source runs it

  /** `getAchievementBasedRecommendations(user, count)`. */
  method GetAchievementBasedRecommendations(user: Option<User>, catalog: seq<Movie>, store: Store, count: int)
    returns (r: seq<Recommendation>)
    ensures r == AchievementRecommendations(user, catalog, store, count)
  {
    if user.None? {
      return [];
    }
    var u := user.value;
    var achievements := CalculateAchievements(user, catalog, store);
    var watched := u.watchedMovies;
    var recommendations: seq<Recommendation> := [];
    recommendations := RecommendFamily(recommendations, EligibleAmong(achievements, GenreFamily), GenreFamily, catalog, watched);
    recommendations := RecommendFamily(recommendations, EligibleAmong(achievements, DirectorFamily), DirectorFamily, catalog, watched);
    recommendations := RecommendFamily(recommendations, EligibleAmong(achievements, EraFamily), EraFamily, catalog, watched);
    r := Take(SortBy(recommendations, ScoreAtLeast), count);
  }

  /** One family's `forEach`: each achievement's candidates, added in order. */
  method RecommendFamily(recs: seq<Recommendation>, achievements: seq<Achievement>, f: Family, catalog: seq<Movie>, watched: seq<string>)
    returns (r: seq<Recommendation>)
    ensures r == Pass(recs, achievements, f, catalog, watched)
  {
    r := recs;
    for i := 0 to |achievements|
      invariant r == Pass(recs, achievements[..i], f, catalog, watched)
    {
      var achievement := achievements[i];
      PassStep(recs, achievements, i, f, catalog, watched);
      var movies := Candidates(f, achievement, catalog, watched);
      var reason := ReasonFor(f, achievement);
      r := RecommendMovies(r, movies, reason);
    }
    assert achievements[..|achievements|] == achievements;
  }

  /** The `forEach` over one achievement's movies. */
  method RecommendMovies(recs: seq<Recommendation>, movies: seq<Movie>, reason: Reason) returns (r: seq<Recommendation>)
    ensures r == AddAll(recs, movies, reason)
  {
    r := recs;
    for j := 0 to |movies|
      invariant r == AddAll(recs, movies[..j], reason)
    {
      assert movies[..j + 1][..j] == movies[..j];
      r := AddRecommendation(r, movies[j], reason);
    }
    assert movies[..|movies|] == movies;
  }

  // ---------------------------------------------------------------------------
  // getNextAchievementForMovie

  function FindById(achievements: seq<Achievement>, id: string): (r: Option<Achievement>)
    ensures r.Some? ==> r.value in achievements && r.value.id == id
    ensures r.None? ==> forall a :: a in achievements ==> a.id != id
  {
    Find(achievements, (a: Achievement) => a.id == id)
  }

  /** Locked in the current list (the first entry with that id), unlocked now. */
  predicate NewlyUnlocked(current: seq<Achievement>, a: Achievement) {
    var c := FindById(current, a.id);
    c.Some? && !c.value.unlocked && a.unlocked
  }

  /** Still locked, with more progress than in the current list. */
  predicate Progressed(current: seq<Achievement>, a: Achievement) {
    var c := FindById(current, a.id);
    c.Some? && a.progress > c.value.progress && !a.unlocked
  }

  function Ratio(a: Achievement): real {
    if a.max == 0 then 0.0 else a.progress as real / a.max as real
  }

  /** The rise in completion ratio since the current list. */
  function Gain(current: seq<Achievement>, a: Achievement): real {
    match FindById(current, a.id)
    case None => 0.0
    case Some(c) => Ratio(a) - Ratio(c)
  }

  /** The comparator `progressDiffB - progressDiffA`: larger gains first. */
  function GainOrder(current: seq<Achievement>): (Achievement, Achievement) -> bool {
    (a: Achievement, b: Achievement) => Gain(current, a) >= Gain(current, b)
  }

  lemma GainOrderTotalPreorder(current: seq<Achievement>)
    ensures TotalPreorder(GainOrder(current))
  {
  }

  function WithWatched(user: User, movieId: string): User {
    user.(watchedMovies := user.watchedMovies + [movieId])
  }

  function NewlyUnlockedAmong(simulated: seq<Achievement>, current: seq<Achievement>): (r: seq<Achievement>)
    ensures forall a :: a in r <==> a in simulated && NewlyUnlocked(current, a)
  {
    Filter(simulated, (a: Achievement) => NewlyUnlocked(current, a))
  }

  function OfKind(achievements: seq<Achievement>, kind: Kind): (r: seq<Achievement>)
    ensures forall a :: a in r <==> a in achievements && a.kind == kind
  {
    Filter(achievements, (a: Achievement) => a.kind == kind)
  }

  function ProgressedAmong(simulated: seq<Achievement>, current: seq<Achievement>): (r: seq<Achievement>)
    ensures forall a :: a in r <==> a in simulated && Progressed(current, a)
  {
    Filter(simulated, (a: Achievement) => Progressed(current, a))
  }

  /** The choice between the current and the simulated achievements: the
      first newly unlocked milestone, else the first newly unlocked
      collection, else the first newly unlocked one; failing those, the
      still-locked one whose ratio rose the most (the first such on a tie). */
  function NextAmong(current: seq<Achievement>, simulated: seq<Achievement>): (r: Option<Achievement>)
    ensures r.Some? ==> r.value in simulated && (NewlyUnlocked(current, r.value) || Progressed(current, r.value))
    ensures r.None? <==> forall a :: a in simulated ==> !NewlyUnlocked(current, a) && !Progressed(current, a)
  {
    var newly := NewlyUnlockedAmong(simulated, current);
    if |newly| > 0 then
      var milestones := OfKind(newly, MilestoneType);
      var collections := OfKind(newly, CollectionType);
      assert newly[0] in newly;
      if |milestones| > 0 then
        assert milestones[0] in milestones;
        Some(milestones[0])
      else if |collections| > 0 then
        assert collections[0] in collections;
        Some(collections[0])
      else Some(newly[0])
    else
      var progressed := ProgressedAmong(simulated, current);
      var ranked := SortBy(progressed, GainOrder(current));
      SortByMembers(progressed, GainOrder(current));
      assert forall a :: a in simulated && Progressed(current, a) ==> a in ranked;
      assert forall a :: a in simulated ==> !NewlyUnlocked(current, a);
      if |ranked| > 0 then
        assert ranked[0] in ranked;
        Some(ranked[0])
      else None
  }

  /** `getNextAchievementForMovie`: compares the user's achievements with
      those of the user with the movie appended to the watched list. */
  function NextAchievementForMovie(user: Option<User>, movie: Movie, catalog: seq<Movie>, store: Store): (r: Option<Achievement>)
    ensures user.None? ==> r.None?
  {
    if user.None? then None
    else
      NextAmong(AchievementsOf(user, catalog, store),
                AchievementsOf(Some(WithWatched(user.value, movie.id)), catalog, store))
  }

  /** When something becomes unlocked, the choice is such an achievement: a
      milestone if one becomes unlocked, otherwise a collection if one does. */
  lemma NextAmongPrefersUnlocked(current: seq<Achievement>, simulated: seq<Achievement>)
    ensures var r := NextAmong(current, simulated);
      (exists a :: a in simulated && NewlyUnlocked(current, a)) ==>
        && r.Some? && r.value in simulated && NewlyUnlocked(current, r.value)
        && ((exists a :: a in simulated && NewlyUnlocked(current, a) && a.kind == MilestoneType) ==> r.value.kind == MilestoneType)
        && ((exists a :: a in simulated && NewlyUnlocked(current, a) && a.kind == CollectionType) ==>
              r.value.kind in {MilestoneType, CollectionType})
  {
    var newly := NewlyUnlockedAmong(simulated, current);
    if a :| a in simulated && NewlyUnlocked(current, a) {
      assert a in newly;
      var milestones := OfKind(newly, MilestoneType);
      var collections := OfKind(newly, CollectionType);
      if |milestones| > 0 {
        assert milestones[0] in milestones;
      } else if |collections| > 0 {
        assert collections[0] in collections;
      } else {
        assert newly[0] in newly;
        forall b | b in simulated && NewlyUnlocked(current, b) ensures b.kind != MilestoneType && b.kind != CollectionType {
          assert b in newly;
          assert b !in milestones && b !in collections;
        }
      }
    }
  }

  /** When nothing becomes unlocked, the choice is a still-locked achievement
      whose progress rose and whose ratio gain no other such achievement
      exceeds; there is none exactly when nothing progressed. */
  lemma NextAmongPrefersLargestGain(current: seq<Achievement>, simulated: seq<Achievement>)
    ensures var r := NextAmong(current, simulated);
      (forall a :: a in simulated ==> !NewlyUnlocked(current, a)) ==>
        && (r.None? <==> forall a :: a in simulated ==> !Progressed(current, a))
        && (r.Some? ==> r.value in simulated && Progressed(current, r.value))
        && (r.Some? ==> forall a :: a in simulated && Progressed(current, a) ==> Gain(current, a) <= Gain(current, r.value))
  {
    var newly := NewlyUnlockedAmong(simulated, current);
    if forall a :: a in simulated ==> !NewlyUnlocked(current, a) {
      HeadIn(newly);
      RankedHead(current, simulated);
    }
  }

  /** The head of the gain ranking: a progressed achievement with the
      largest gain, present exactly when something progressed. */
  lemma RankedHead(current: seq<Achievement>, simulated: seq<Achievement>)
    ensures var ranked := SortBy(ProgressedAmong(simulated, current), GainOrder(current));
      && (|ranked| == 0 <==> forall a :: a in simulated ==> !Progressed(current, a))
      && (|ranked| > 0 ==> ranked[0] in simulated && Progressed(current, ranked[0]))
      && (|ranked| > 0 ==> forall a :: a in simulated && Progressed(current, a) ==> Gain(current, a) <= Gain(current, ranked[0]))
  {
    var progressed := ProgressedAmong(simulated, current);
    var ranked := SortBy(progressed, GainOrder(current));
    SortByMembers(progressed, GainOrder(current));
    assert forall a :: a in simulated && Progressed(current, a) ==> a in ranked;
    if |ranked| > 0 {
      GainOrderTotalPreorder(current);
      SortBySorted(progressed, GainOrder(current));
      assert ranked[0] in ranked;
      SortedFirst(ranked, GainOrder(current));
    }
  }
}
