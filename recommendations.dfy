/**
 * The preference recommender (src/lib/recommendations.ts): per-genre and
 * per-director average ratings over the watched movies, a weighted score for
 * every unwatched movie, and the top-scoring movies (or an arbitrary selection
 * when there is no watch history).
 */
module Recommendations {
  import opened Wrappers
  import opened JsStrings
  import opened JsArrays
  import opened Types
  import opened Movies

  /** A genre or director preference: how often it was watched and the mean
      rating. */
  datatype Preference = Preference(name: string, count: nat, score: real)

  // ---------------------------------------------------------------------------
  // Ratings

  /** `parseInt` of the stored rating text, `None` standing for NaN. Any other
      stored record is JSON text starting with '{', which parses to NaN. */
  function StoredRating(store: Store, movieId: string): (r: Option<Option<int>>)
    ensures r.None? <==> RatingKey(movieId) !in store || store[RatingKey(movieId)] == Raw("")
  {
    var key := RatingKey(movieId);
    if key !in store then None
    else match store[key]
      case Raw(text) => if text == "" then None else Some(ParseInt(text))
      case _ => Some(None)
  }

  /** `movieRatings[id] || 3`: a missing, blank, unparsable or zero rating
      counts as 3. */
  function EffectiveRating(stored: Option<Option<int>>): (r: int)
    ensures r != 0
    ensures stored.Some? && stored.value.Some? && stored.value.value != 0 ==> r == stored.value.value
  {
    match stored
    case None => 3
    case Some(parsed) =>
      match parsed
      case None => 3
      case Some(n) => if n == 0 then 3 else n
  }

  function Rating(store: Store, movieId: string): int {
    EffectiveRating(StoredRating(store, movieId))
  }

  /** A movie without a stored rating counts as rated 3, and an integer
      rating written as its decimal text is read back. */
  lemma RatingDefaults(store: Store, movieId: string, n: int)
    ensures RatingKey(movieId) !in store ==> Rating(store, movieId) == 3
    ensures n != 0 && RatingKey(movieId) in store && store[RatingKey(movieId)] == Raw(IntToString(n)) ==>
              Rating(store, movieId) == n
  {
    ParseIntOfIntToString(n, []);
    assert IntToString(n) + [] == IntToString(n);
  }

  /** The watched ids resolved through `getMovieById`, unknown ids dropped. */
  function Resolve(ids: seq<string>, catalog: seq<Movie>): (r: seq<Movie>)
    ensures |r| <= |ids|
    ensures forall m :: m in r ==> m in catalog && m.id in ids
  {
    if ids == [] then []
    else
      var prefix := Resolve(ids[..|ids| - 1], catalog);
      match GetMovieById(catalog, ids[|ids| - 1])
      case None => prefix
      case Some(m) => prefix + [m]
  }

  /** Unknown ids are dropped and known ones kept, once per occurrence. */
  lemma {:induction false} ResolveMembers(ids: seq<string>, catalog: seq<Movie>, id: string)
    ensures (exists m :: m in Resolve(ids, catalog) && m.id == id)
            <==> id in ids && exists m :: m in catalog && m.id == id
    decreases |ids|
  {
    if ids != [] {
      var prefix := ids[..|ids| - 1];
      ResolveMembers(prefix, catalog, id);
      assert id in ids <==> id in prefix || id == ids[|ids| - 1];
      if id == ids[|ids| - 1] && exists m :: m in catalog && m.id == id {
        var m :| m in catalog && m.id == id;
        assert GetMovieById(catalog, id).Some?;
      }
    }
  }

  // ---------------------------------------------------------------------------
  // Tallies: each watched movie contributes its labels (its genres, or its
  // director) with its rating

  datatype Rated = Rated(labels: seq<string>, rating: int)

  /** How many of the first `n` labels are `x`. */
  function OccurrencesUpTo(s: seq<string>, n: nat, x: string): (c: nat)
    requires n <= |s|
    ensures c == 0 <==> forall k :: 0 <= k < n ==> s[k] != x
  {
    if n == 0 then 0 else OccurrencesUpTo(s, n - 1, x) + if s[n - 1] == x then 1 else 0
  }

  /** The rating `w` added once per occurrence of `x` among the first `n` labels. */
  function WeightedUpTo(s: seq<string>, n: nat, x: string, w: int): (t: int)
    requires n <= |s|
    ensures (forall k :: 0 <= k < n ==> s[k] != x) ==> t == 0
  {
    if n == 0 then 0 else WeightedUpTo(s, n - 1, x, w) + if s[n - 1] == x then w else 0
  }

  function Occurrences(s: seq<string>, x: string): (c: nat)
    ensures c == 0 <==> x !in s
  {
    OccurrencesUpTo(s, |s|, x)
  }

  function Weighted(s: seq<string>, x: string, w: int): (t: int)
    ensures x !in s ==> t == 0
  {
    WeightedUpTo(s, |s|, x, w)
  }

  /** How many times the label was counted. */
  function CountIn(entries: seq<Rated>, x: string): nat {
    if entries == [] then 0 else CountIn(entries[..|entries| - 1], x) + Occurrences(entries[|entries| - 1].labels, x)
  }

  /** The ratings added up for the label. */
  function TotalIn(entries: seq<Rated>, x: string): int {
    if entries == [] then 0
    else
      var e := entries[|entries| - 1];
      TotalIn(entries[..|entries| - 1], x) + Weighted(e.labels, x, e.rating)
  }

  /** `keys` extended by the labels not yet in it, in order. */
  function AddLabels(keys: seq<string>, labels: seq<string>): (r: seq<string>)
    requires Distinct(keys)
    ensures Distinct(r) && keys <= r
    ensures forall x :: x in r <==> x in keys || x in labels
  {
    if labels == [] then keys else SetAdd(AddLabels(keys, labels[..|labels| - 1]), labels[|labels| - 1])
  }

  lemma AddLabelsStep(keys: seq<string>, labels: seq<string>, j: nat)
    requires Distinct(keys) && j < |labels|
    ensures AddLabels(keys, labels[..j + 1]) == SetAdd(AddLabels(keys, labels[..j]), labels[j])
  {
    assert labels[..j + 1][..j] == labels[..j];
  }

  /** The record's keys: every label once, in order of first appearance. */
  function LabelsIn(entries: seq<Rated>): (r: seq<string>)
    ensures Distinct(r)
  {
    if entries == [] then [] else AddLabels(LabelsIn(entries[..|entries| - 1]), entries[|entries| - 1].labels)
  }

  /** A label is a key exactly when it was counted. */
  lemma {:induction false} LabelsInCounted(entries: seq<Rated>, x: string)
    ensures x in LabelsIn(entries) <==> CountIn(entries, x) > 0
    decreases |entries|
  {
    if entries != [] {
      LabelsInCounted(entries[..|entries| - 1], x);
    }
  }

  /** A label never counted has no rating total. */
  lemma {:induction false} UncountedTotal(entries: seq<Rated>, x: string)
    requires CountIn(entries, x) == 0
    ensures TotalIn(entries, x) == 0
    decreases |entries|
  {
    if entries != [] {
      UncountedTotal(entries[..|entries| - 1], x);
    }
  }

  /** The tallies of one more movie. */
  lemma TallyAppend(entries: seq<Rated>, e: Rated)
    ensures LabelsIn(entries + [e]) == AddLabels(LabelsIn(entries), e.labels)
    ensures forall x :: CountIn(entries + [e], x) == CountIn(entries, x) + Occurrences(e.labels, x)
    ensures forall x :: TotalIn(entries + [e], x) == TotalIn(entries, x) + Weighted(e.labels, x, e.rating)
  {
    assert (entries + [e])[..|entries|] == entries;
  }

  /** `totalRating / count`. */
  function Average(total: int, count: nat): real {
    if count == 0 then 0.0 else total as real / count as real
  }

  /** One preference per key, in key order. */
  function Averaged(keys: seq<string>, entries: seq<Rated>): (r: seq<Preference>)
    ensures |r| == |keys|
    ensures forall i :: 0 <= i < |keys| ==> r[i].name == keys[i] && r[i].count == CountIn(entries, keys[i])
  {
    seq(|keys|, i requires 0 <= i < |keys| => Preference(keys[i], CountIn(entries, keys[i]), Average(TotalIn(entries, keys[i]), CountIn(entries, keys[i]))))
  }

  /** The comparator `b.score - a.score`: higher scores first. */
  function ScoreAtLeast(a: Preference, b: Preference): bool {
    a.score >= b.score
  }

  /** The preferences of a tally, best first (ties kept in key order). */
  function PreferencesOf(entries: seq<Rated>): seq<Preference> {
    SortBy(Averaged(LabelsIn(entries), entries), ScoreAtLeast)
  }

  /** Each averaged key carries its label's count and the mean of its ratings. */
  lemma AveragedMeans(keys: seq<string>, entries: seq<Rated>)
    ensures forall p :: p in Averaged(keys, entries) && p.count > 0 ==> p.score * p.count as real == TotalIn(entries, p.name) as real
  {
  }

  /** Each preference counts its label's occurrences and carries their mean
      rating. */
  lemma PreferencesMeans(entries: seq<Rated>)
    ensures forall p :: p in PreferencesOf(entries) ==>
      && p.count == CountIn(entries, p.name) > 0
      && p.score * p.count as real == TotalIn(entries, p.name) as real
  {
    var keys := LabelsIn(entries);
    var averaged := Averaged(keys, entries);
    SortByMembers(averaged, ScoreAtLeast);
    AveragedMeans(keys, entries);
    forall p | p in averaged ensures p.count > 0 {
      var i :| 0 <= i < |averaged| && averaged[i] == p;
      LabelsInCounted(entries, keys[i]);
    }
  }

  /** There is a preference exactly for each label that was counted. */
  lemma PreferencesNames(entries: seq<Rated>)
    ensures forall x :: (exists p :: p in PreferencesOf(entries) && p.name == x) <==> CountIn(entries, x) > 0
  {
    var keys := LabelsIn(entries);
    var averaged := Averaged(keys, entries);
    SortByMembers(averaged, ScoreAtLeast);
    forall x ensures (exists p :: p in averaged && p.name == x) <==> CountIn(entries, x) > 0 {
      LabelsInCounted(entries, x);
      if CountIn(entries, x) > 0 {
        var i :| 0 <= i < |keys| && keys[i] == x;
        assert averaged[i] in averaged;
      }
    }
  }

  /** The preferences come by non-increasing score. */
  lemma PreferencesOrdered(entries: seq<Rated>)
    ensures var prefs := PreferencesOf(entries);
      forall i, j :: 0 <= i < j < |prefs| ==> prefs[i].score >= prefs[j].score
  {
    assert TotalPreorder(ScoreAtLeast);
    SortBySorted(Averaged(LabelsIn(entries), entries), ScoreAtLeast);
  }

  /** The entries of the genre tally (every genre of each watched movie). */
  function GenreEntries(movies: seq<Movie>, store: Store): (r: seq<Rated>)
    ensures |r| == |movies|
    ensures forall i :: 0 <= i < |movies| ==> r[i] == Rated(movies[i].genre, Rating(store, movies[i].id))
  {
    seq(|movies|, i requires 0 <= i < |movies| => Rated(movies[i].genre, Rating(store, movies[i].id)))
  }

  /** The entries of the director tally (each watched movie's director). */
  function DirectorEntries(movies: seq<Movie>, store: Store): (r: seq<Rated>)
    ensures |r| == |movies|
    ensures forall i :: 0 <= i < |movies| ==> r[i] == Rated([movies[i].director], Rating(store, movies[i].id))
  {
    seq(|movies|, i requires 0 <= i < |movies| => Rated([movies[i].director], Rating(store, movies[i].id)))
  }

  function HasHistory(user: Option<User>): bool {
    user.Some? && |user.value.watchedMovies| > 0
  }

  function GenrePreferences(user: Option<User>, catalog: seq<Movie>, store: Store): (r: seq<Preference>)
    ensures !HasHistory(user) ==> r == []
  {
    if !HasHistory(user) then [] else PreferencesOf(GenreEntries(Resolve(user.value.watchedMovies, catalog), store))
  }

  function DirectorPreferences(user: Option<User>, catalog: seq<Movie>, store: Store): (r: seq<Preference>)
    ensures !HasHistory(user) ==> r == []
  {
    if !HasHistory(user) then [] else PreferencesOf(DirectorEntries(Resolve(user.value.watchedMovies, catalog), store))
  }

  // ---------------------------------------------------------------------------
  // analyzeUserPreferences as the source runs it

  /** `analyzeUserPreferences`: the two tallies, each turned into sorted
      preferences. */
  method AnalyzeUserPreferences(user: Option<User>, catalog: seq<Movie>, store: Store)
    returns (genrePreferences: seq<Preference>, directorPreferences: seq<Preference>)
    ensures genrePreferences == GenrePreferences(user, catalog, store)
    ensures directorPreferences == DirectorPreferences(user, catalog, store)
  {
    if !HasHistory(user) {
      return [], [];
    }
    var watchedMovies := Resolve(user.value.watchedMovies, catalog);
    var movieRatings := RateMovies(watchedMovies, store);
    var genreEntries := seq(|watchedMovies|, i requires 0 <= i < |watchedMovies| =>
      Rated(watchedMovies[i].genre, EffectiveRating(movieRatings[watchedMovies[i].id])));
    var directorEntries := seq(|watchedMovies|, i requires 0 <= i < |watchedMovies| =>
      Rated([watchedMovies[i].director], EffectiveRating(movieRatings[watchedMovies[i].id])));
    assert genreEntries == GenreEntries(watchedMovies, store);
    assert directorEntries == DirectorEntries(watchedMovies, store);
    genrePreferences := Preferences(genreEntries);
    directorPreferences := Preferences(directorEntries);
  }

  /** The `movieRatings` record: the stored rating of every watched movie. */
  method RateMovies(movies: seq<Movie>, store: Store) returns (ratings: map<string, Option<Option<int>>>)
    ensures forall m :: m in movies ==> m.id in ratings && ratings[m.id] == StoredRating(store, m.id)
  {
    ratings := map[];
    for i := 0 to |movies|
      invariant forall m :: m in movies[..i] ==> m.id in ratings && ratings[m.id] == StoredRating(store, m.id)
    {
      assert forall m :: m in movies[..i + 1] ==> m in movies[..i] || m == movies[i];
      ratings := ratings[movies[i].id := StoredRating(store, movies[i].id)];
    }
    assert movies[..|movies|] == movies;
  }

  /** A tally's record turned into preferences and sorted. */
  method Preferences(entries: seq<Rated>) returns (prefs: seq<Preference>)
    ensures prefs == PreferencesOf(entries)
  {
    var keys, counts, totals := Tally(entries);
    prefs := seq(|keys|, i requires 0 <= i < |keys| => Preference(keys[i], counts[keys[i]], Average(totals[keys[i]], counts[keys[i]])));
    assert prefs == Averaged(keys, entries);
    prefs := SortBy(prefs, ScoreAtLeast);
  }

  /** The `forEach` building the record of counts and rating totals, keys in
      insertion order. */
  method Tally(entries: seq<Rated>) returns (keys: seq<string>, counts: map<string, nat>, totals: map<string, int>)
    ensures keys == LabelsIn(entries)
    ensures forall x :: (x in counts <==> x in keys) && (x in totals <==> x in keys)
    ensures forall x :: x in keys ==> counts[x] == CountIn(entries, x) && totals[x] == TotalIn(entries, x)
  {
    keys, counts, totals := [], map[], map[];
    for i := 0 to |entries|
      invariant keys == LabelsIn(entries[..i])
      invariant forall x :: (x in counts <==> x in keys) && (x in totals <==> x in keys)
      invariant forall x :: x in keys ==> counts[x] == CountIn(entries[..i], x) && totals[x] == TotalIn(entries[..i], x)
    {
      assert entries[..i + 1][..i] == entries[..i];
      keys, counts, totals := TallyEntry(entries[..i], entries[i], keys, counts, totals);
    }
    assert entries[..|entries|] == entries;
  }

  /** One movie's labels added to the record. */
  method TallyEntry(before: seq<Rated>, e: Rated, keys0: seq<string>, counts0: map<string, nat>, totals0: map<string, int>)
    returns (keys: seq<string>, counts: map<string, nat>, totals: map<string, int>)
    requires keys0 == LabelsIn(before)
    requires forall x :: (x in counts0 <==> x in keys0) && (x in totals0 <==> x in keys0)
    requires forall x :: x in keys0 ==> counts0[x] == CountIn(before, x) && totals0[x] == TotalIn(before, x)
    ensures keys == LabelsIn(before + [e])
    ensures forall x :: (x in counts <==> x in keys) && (x in totals <==> x in keys)
    ensures forall x :: x in keys ==> counts[x] == CountIn(before + [e], x) && totals[x] == TotalIn(before + [e], x)
  {
    keys, counts, totals := TallyLabels(keys0, counts0, totals0, e.labels, e.rating);
    CountedEntry(before, e, keys0, counts0, totals0, keys, counts, totals);
  }

  /** The inner `forEach` over one movie's labels. */
  method TallyLabels(keys0: seq<string>, counts0: map<string, nat>, totals0: map<string, int>, labels: seq<string>, w: int)
    returns (keys: seq<string>, counts: map<string, nat>, totals: map<string, int>)
    requires Distinct(keys0)
    requires forall x :: (x in counts0 <==> x in keys0) && (x in totals0 <==> x in keys0)
    ensures keys == AddLabels(keys0, labels)
    ensures Counted(keys0, counts0, totals0, labels, |labels|, w, keys, counts, totals)
  {
    keys, counts, totals := keys0, counts0, totals0;
    for j := 0 to |labels|
      invariant keys == AddLabels(keys0, labels[..j])
      invariant Counted(keys0, counts0, totals0, labels, j, w, keys, counts, totals)
    {
      keys, counts, totals := TallyLabelAt(keys0, counts0, totals0, labels, j, w, keys, counts, totals);
    }
    assert labels[..|labels|] == labels;
  }

  /** The record after a movie's labels is the tally of one more entry. */
  lemma CountedEntry(before: seq<Rated>, e: Rated, keys0: seq<string>, counts0: map<string, nat>, totals0: map<string, int>,
                     keys: seq<string>, counts: map<string, nat>, totals: map<string, int>)
    requires keys0 == LabelsIn(before)
    requires forall x :: x in keys0 ==> x in counts0 && x in totals0 && counts0[x] == CountIn(before, x) && totals0[x] == TotalIn(before, x)
    requires keys == AddLabels(keys0, e.labels)
    requires Counted(keys0, counts0, totals0, e.labels, |e.labels|, e.rating, keys, counts, totals)
    ensures keys == LabelsIn(before + [e])
    ensures forall x :: (x in counts <==> x in keys) && (x in totals <==> x in keys)
    ensures forall x :: x in keys ==> counts[x] == CountIn(before + [e], x) && totals[x] == TotalIn(before + [e], x)
  {
    TallyAppend(before, e);
    forall x | x in keys
      ensures counts[x] == CountIn(before + [e], x) && totals[x] == TotalIn(before + [e], x)
    {
      if x !in keys0 {
        LabelsInCounted(before, x);
        UncountedTotal(before, x);
      }
    }
  }

  /** The record `counts0`/`totals0` over `keys0` after the first `j` labels of
      one more movie rated `w`. */
  ghost predicate Counted(keys0: seq<string>, counts0: map<string, nat>, totals0: map<string, int>,
                          labels: seq<string>, j: nat, w: int, keys: seq<string>, counts: map<string, nat>, totals: map<string, int>)
    requires j <= |labels|
  {
    && (forall x :: (x in counts <==> x in keys) && (x in totals <==> x in keys))
    && (forall x :: x in keys ==>
          && counts[x] == (if x in keys0 && x in counts0 then counts0[x] else 0) + OccurrencesUpTo(labels, j, x)
          && totals[x] == (if x in keys0 && x in totals0 then totals0[x] else 0) + WeightedUpTo(labels, j, x, w))
  }

  /** The inner loop's body: label `j` of the movie counted. */
  method TallyLabelAt(keys0: seq<string>, counts0: map<string, nat>, totals0: map<string, int>,
                      labels: seq<string>, j: nat, w: int,
                      keys1: seq<string>, counts1: map<string, nat>, totals1: map<string, int>)
    returns (keys: seq<string>, counts: map<string, nat>, totals: map<string, int>)
    requires j < |labels| && Distinct(keys0)
    requires keys1 == AddLabels(keys0, labels[..j])
    requires Counted(keys0, counts0, totals0, labels, j, w, keys1, counts1, totals1)
    ensures keys == AddLabels(keys0, labels[..j + 1])
    ensures Counted(keys0, counts0, totals0, labels, j + 1, w, keys, counts, totals)
  {
    var name := labels[j];
    AddLabelsStep(keys0, labels, j);
    keys, counts, totals := TallyLabel(keys1, counts1, totals1, name, w);
    NotInPrefix(labels, j, name);
    CountedStep(keys0, counts0, totals0, labels, j, w, keys1, counts1, totals1, keys, counts, totals);
  }

  lemma NotInPrefix(s: seq<string>, j: nat, x: string)
    requires j <= |s|
    ensures x !in s[..j] ==> forall k :: 0 <= k < j ==> s[k] != x
  {
    assert forall k :: 0 <= k < j ==> s[k] == s[..j][k];
  }

  /** What counting label `j` does to the record, in the terms of `Counted`. */
  lemma CountedStep(keys0: seq<string>, counts0: map<string, nat>, totals0: map<string, int>,
                    labels: seq<string>, j: nat, w: int,
                    keys1: seq<string>, counts1: map<string, nat>, totals1: map<string, int>,
                    keys: seq<string>, counts: map<string, nat>, totals: map<string, int>)
    requires j < |labels|
    requires Counted(keys0, counts0, totals0, labels, j, w, keys1, counts1, totals1)
    requires labels[j] !in keys1 ==> labels[j] !in keys0 && forall k :: 0 <= k < j ==> labels[k] != labels[j]
    requires forall x :: x in keys <==> x in keys1 || x == labels[j]
    requires forall x :: (x in counts <==> x in keys) && (x in totals <==> x in keys)
    requires forall x :: x in keys1 && x != labels[j] ==> counts[x] == counts1[x] && totals[x] == totals1[x]
    requires labels[j] in keys1 ==> counts[labels[j]] == counts1[labels[j]] + 1 && totals[labels[j]] == totals1[labels[j]] + w
    requires labels[j] !in keys1 ==> counts[labels[j]] == 1 && totals[labels[j]] == w
    ensures Counted(keys0, counts0, totals0, labels, j + 1, w, keys, counts, totals)
  {
  }

  /** One label counted: the key is created at zero when missing, then its
      count goes up by one and its total by the rating. */
  method TallyLabel(keys0: seq<string>, counts0: map<string, nat>, totals0: map<string, int>, name: string, rating: int)
    returns (keys: seq<string>, counts: map<string, nat>, totals: map<string, int>)
    requires Distinct(keys0)
    requires forall x :: (x in counts0 <==> x in keys0) && (x in totals0 <==> x in keys0)
    ensures keys == SetAdd(keys0, name)
    ensures forall x :: (x in counts <==> x in keys) && (x in totals <==> x in keys)
    ensures forall x :: x in keys0 && x != name ==> counts[x] == counts0[x] && totals[x] == totals0[x]
    ensures name in keys0 ==> counts[name] == counts0[name] + 1 && totals[name] == totals0[name] + rating
    ensures name !in keys0 ==> counts[name] == 1 && totals[name] == rating
  {
    keys, counts, totals := keys0, counts0, totals0;
    if name !in counts {
      counts := counts[name := 0];
      totals := totals[name := 0];
      keys := keys + [name];
    }
    counts := counts[name := counts[name] + 1];
    totals := totals[name := totals[name] + rating];
  }

  // ---------------------------------------------------------------------------
  // calculateMovieScore

  /** `new Map(prefs.map(p => [p.name, p.score]))`: a later entry overrides an
      earlier one with the same name. */
  function ScoreMap(prefs: seq<Preference>): (m: map<string, real>)
    ensures forall x :: x in m <==> exists p :: p in prefs && p.name == x
  {
    if prefs == [] then map[]
    else
      var last := prefs[|prefs| - 1];
      var m := ScoreMap(prefs[..|prefs| - 1]);
      assert forall p :: p in prefs <==> p in prefs[..|prefs| - 1] || p == last;
      m[last.name := last.score]
  }

  /** With distinct names, the map gives each preference its own score. */
  lemma {:induction false} ScoreMapOfDistinct(prefs: seq<Preference>, p: Preference)
    requires forall i, j :: 0 <= i < j < |prefs| ==> prefs[i].name != prefs[j].name
    requires p in prefs
    ensures ScoreMap(prefs)[p.name] == p.score
    decreases |prefs|
  {
    var last := prefs[|prefs| - 1];
    if p != last {
      var prefix := prefs[..|prefs| - 1];
      var i :| 0 <= i < |prefs| && prefs[i] == p;
      assert i < |prefs| - 1 && prefix[i] == p;
      ScoreMapOfDistinct(prefix, p);
    }
  }

  /** The genre part: twice the preference score of each listed genre that
      has one. */
  function GenreScore(genres: seq<string>, scores: map<string, real>): real {
    if genres == [] then 0.0
    else
      var g := genres[|genres| - 1];
      GenreScore(genres[..|genres| - 1], scores) + if g in scores then scores[g] * 2.0 else 0.0
  }

  /** The director part: one and a half times the director's score. */
  function DirectorScore(director: string, scores: map<string, real>): real {
    if director in scores then scores[director] * 1.5 else 0.0
  }

  /** `calculateMovieScore`: -1 for a watched movie, otherwise the genre and
      director parts. */
  function MovieScore(movie: Movie, genrePrefs: seq<Preference>, directorPrefs: seq<Preference>, watched: seq<string>): (s: real)
    ensures movie.id in watched ==> s == -1.0
  {
    if movie.id in watched then -1.0
    else GenreScore(movie.genre, ScoreMap(genrePrefs)) + DirectorScore(movie.director, ScoreMap(directorPrefs))
  }

  /** Adding up the matching genres' preference scores. */
  function SumScores(genres: seq<string>, scores: map<string, real>): real {
    if genres == [] then 0.0
    else
      var g := genres[|genres| - 1];
      SumScores(genres[..|genres| - 1], scores) + if g in scores then scores[g] else 0.0
  }

  /** The genre part is twice the plain sum of the genre scores. */
  lemma {:induction false} GenreScoreDoubles(genres: seq<string>, scores: map<string, real>)
    ensures GenreScore(genres, scores) == 2.0 * SumScores(genres, scores)
    decreases |genres|
  {
    if genres != [] {
      GenreScoreDoubles(genres[..|genres| - 1], scores);
    }
  }

  /** The score of an unwatched movie: twice the sum of its genres'
      preference scores, plus one and a half times its director's. */
  lemma MovieScoreWeights(movie: Movie, genrePrefs: seq<Preference>, directorPrefs: seq<Preference>, watched: seq<string>)
    requires movie.id !in watched
    ensures var d := ScoreMap(directorPrefs);
      MovieScore(movie, genrePrefs, directorPrefs, watched)
      == 2.0 * SumScores(movie.genre, ScoreMap(genrePrefs)) + (if movie.director in d then 1.5 * d[movie.director] else 0.0)
  {
    GenreScoreDoubles(movie.genre, ScoreMap(genrePrefs));
  }

  /** The method the source runs: the genre loop accumulating into `score`. */
  method CalculateMovieScore(movie: Movie, genrePrefs: seq<Preference>, directorPrefs: seq<Preference>, watched: seq<string>)
    returns (score: real)
    ensures score == MovieScore(movie, genrePrefs, directorPrefs, watched)
  {
    if movie.id in watched {
      return -1.0;
    }
    score := 0.0;
    var genreMap := ScoreMap(genrePrefs);
    for i := 0 to |movie.genre|
      invariant score == GenreScore(movie.genre[..i], genreMap)
    {
      var genre := movie.genre[i];
      assert movie.genre[..i + 1][..i] == movie.genre[..i];
      if genre in genreMap {
        score := score + genreMap[genre] * 2.0;
      }
    }
    assert movie.genre[..|movie.genre|] == movie.genre;
    var directorMap := ScoreMap(directorPrefs);
    if movie.director in directorMap {
      score := score + directorMap[movie.director] * 1.5;
    }
  }

  // ---------------------------------------------------------------------------
  // getRecommendations

  datatype Scored = Scored(movie: Movie, score: real)

  function ScoredAll(movies: seq<Movie>, genrePrefs: seq<Preference>, directorPrefs: seq<Preference>, watched: seq<string>): (r: seq<Scored>)
    ensures |r| == |movies|
    ensures forall i :: 0 <= i < |movies| ==> r[i] == Scored(movies[i], MovieScore(movies[i], genrePrefs, directorPrefs, watched))
  {
    seq(|movies|, i requires 0 <= i < |movies| => Scored(movies[i], MovieScore(movies[i], genrePrefs, directorPrefs, watched)))
  }

  /** Each scored entry carries its own movie's score. */
  lemma ScoredAllScores(movies: seq<Movie>, genrePrefs: seq<Preference>, directorPrefs: seq<Preference>, watched: seq<string>)
    ensures forall s :: s in ScoredAll(movies, genrePrefs, directorPrefs, watched) ==>
      s.movie in movies && s.score == MovieScore(s.movie, genrePrefs, directorPrefs, watched)
  {
  }

  /** The comparator `b.score - a.score`. */
  function ScoredAtLeast(a: Scored, b: Scored): bool {
    a.score >= b.score
  }

  function MoviesOf(s: seq<Scored>): (r: seq<Movie>)
    ensures |r| == |s| && forall i :: 0 <= i < |s| ==> r[i] == s[i].movie
  {
    seq(|s|, i requires 0 <= i < |s| => s[i].movie)
  }

  lemma MoviesOfHas(s: seq<Scored>, t: int)
    ensures 0 <= t < |s| ==> s[t].movie in MoviesOf(s)
  {
    if 0 <= t < |s| {
      assert MoviesOf(s)[t] == s[t].movie;
    }
  }

  /** The unwatched catalog movies by descending score (ties in catalog
      order), cut to `count`. */
  function TopMovies(catalog: seq<Movie>, watched: seq<string>, genrePrefs: seq<Preference>, directorPrefs: seq<Preference>, count: int): (r: seq<Movie>)
    ensures count >= 0 ==> |r| <= count
  {
    MoviesOf(Take(SortBy(ScoredAll(UnwatchedAmong(catalog, watched), genrePrefs, directorPrefs, watched), ScoredAtLeast), count))
  }

  /** The chosen movies are unwatched catalog movies, in non-increasing score
      order. */
  lemma TopMoviesChosen(catalog: seq<Movie>, watched: seq<string>, genrePrefs: seq<Preference>, directorPrefs: seq<Preference>, count: int)
    ensures var r := TopMovies(catalog, watched, genrePrefs, directorPrefs, count);
      && (forall m :: m in r ==> m in catalog && m.id !in watched)
      && (forall i, j :: 0 <= i < j < |r| ==>
            MovieScore(r[i], genrePrefs, directorPrefs, watched) >= MovieScore(r[j], genrePrefs, directorPrefs, watched))
  {
    var all := ScoredAll(UnwatchedAmong(catalog, watched), genrePrefs, directorPrefs, watched);
    var sorted := SortBy(all, ScoredAtLeast);
    var top := Take(sorted, count);
    var r := MoviesOf(top);
    assert TotalPreorder(ScoredAtLeast);
    SortBySorted(all, ScoredAtLeast);
    SortByMembers(all, ScoredAtLeast);
    assert forall k :: 0 <= k < |r| ==> top[k] == sorted[k] && top[k] in sorted;
    forall k | 0 <= k < |r| ensures r[k] in catalog && r[k].id !in watched && top[k].score == MovieScore(r[k], genrePrefs, directorPrefs, watched) {
      var t :| 0 <= t < |all| && all[t] == top[k];
    }
  }

  /** Every unwatched catalog movie left out scores no higher than any chosen
      one. */
  lemma TopMoviesBest(catalog: seq<Movie>, watched: seq<string>, genrePrefs: seq<Preference>, directorPrefs: seq<Preference>, count: int)
    ensures var r := TopMovies(catalog, watched, genrePrefs, directorPrefs, count);
      forall m, k :: m in catalog && m.id !in watched && m !in r && 0 <= k < |r| ==>
        MovieScore(r[k], genrePrefs, directorPrefs, watched) >= MovieScore(m, genrePrefs, directorPrefs, watched)
  {
    var unwatched := UnwatchedAmong(catalog, watched);
    var all := ScoredAll(unwatched, genrePrefs, directorPrefs, watched);
    var sorted := SortBy(all, ScoredAtLeast);
    var top := Take(sorted, count);
    var r := MoviesOf(top);
    assert TotalPreorder(ScoredAtLeast);
    SortBySorted(all, ScoredAtLeast);
    SortByMembers(all, ScoredAtLeast);
    ScoredAllScores(unwatched, genrePrefs, directorPrefs, watched);
    forall m, k | m in catalog && m.id !in watched && m !in r && 0 <= k < |r|
      ensures MovieScore(r[k], genrePrefs, directorPrefs, watched) >= MovieScore(m, genrePrefs, directorPrefs, watched)
    {
      var u :| 0 <= u < |unwatched| && unwatched[u] == m;
      assert all[u] in sorted;
      var t :| 0 <= t < |sorted| && sorted[t] == all[u];
      MoviesOfHas(top, t);
      assert t >= |top|;
      assert top[k] == sorted[k] && sorted[k] in all;
      assert ScoredAtLeast(sorted[k], sorted[t]);
    }
  }

  /** `getRandomRecommendations`: the first `count` movies of an arbitrary
      reordering of the catalog. */
  method RandomRecommendations(catalog: seq<Movie>, count: int) returns (r: seq<Movie>)
    ensures |r| == SliceEnd(|catalog|, count)
    ensures multiset(r) <= multiset(catalog)
    ensures Distinct(catalog) ==> Distinct(r)
  {
    var shuffled :| multiset(shuffled) == multiset(catalog);
    r := Take(shuffled, count);
    assert shuffled == r + shuffled[|r|..];
    assert multiset(shuffled) == multiset(r) + multiset(shuffled[|r|..]);
    if Distinct(catalog) {
      PermutationDistinct(catalog, shuffled);
    }
  }

  /** `getRecommendations`: an arbitrary selection without watch history,
      otherwise the top-scoring unwatched movies. */
  method GetRecommendations(user: Option<User>, catalog: seq<Movie>, store: Store, count: int) returns (r: seq<Movie>)
    ensures !HasHistory(user) ==> |r| == SliceEnd(|catalog|, count) && multiset(r) <= multiset(catalog)
    ensures !HasHistory(user) && Distinct(catalog) ==> Distinct(r)
    ensures HasHistory(user) ==>
      r == TopMovies(catalog, user.value.watchedMovies, GenrePreferences(user, catalog, store), DirectorPreferences(user, catalog, store), count)
  {
    if !HasHistory(user) {
      r := RandomRecommendations(catalog, count);
      return;
    }
    var genrePreferences, directorPreferences := AnalyzeUserPreferences(user, catalog, store);
    var watchedMovieIds := user.value.watchedMovies;
    var unwatched := UnwatchedAmong(catalog, watchedMovieIds);
    var scoredMovies := ScoreMovies(unwatched, genrePreferences, directorPreferences, watchedMovieIds);
    r := MoviesOf(Take(SortBy(scoredMovies, ScoredAtLeast), count));
  }

  /** The `map` pairing each unwatched movie with its score. */
  method ScoreMovies(movies: seq<Movie>, genrePrefs: seq<Preference>, directorPrefs: seq<Preference>, watched: seq<string>)
    returns (scored: seq<Scored>)
    ensures scored == ScoredAll(movies, genrePrefs, directorPrefs, watched)
  {
    scored := [];
    for i := 0 to |movies|
      invariant scored == ScoredAll(movies[..i], genrePrefs, directorPrefs, watched)
    {
      var score := CalculateMovieScore(movies[i], genrePrefs, directorPrefs, watched);
      scored := scored + [Scored(movies[i], score)];
    }
    assert movies[..|movies|] == movies;
  }
}
