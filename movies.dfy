/**
 * The catalog accessor (src/data/movies.ts): lookups, sorted listings and a
 * conjunctive filter over the movie catalog, which is a parameter here
 * rather than the built-in ten-record list.
 */
module Movies {
  import opened Wrappers
  import opened JsStrings
  import opened JsArrays
  import opened Types

  // ---------------------------------------------------------------------------
  // Lookups

  /** `getRandomMovie`: some movie of the catalog, or undefined when it is
      empty; which one is left open. */
  method GetRandomMovie(catalog: seq<Movie>) returns (r: Option<Movie>)
    ensures r.Some? <==> |catalog| > 0
    ensures r.Some? ==> r.value in catalog
  {
    if |catalog| == 0 {
      r := None;
    } else {
      var i :| 0 <= i < |catalog|;
      r := Some(catalog[i]);
    }
  }

  /** `getMovieById`: the first catalog movie with that id. */
  function GetMovieById(catalog: seq<Movie>, id: string): (r: Option<Movie>)
    ensures r.None? <==> forall i :: 0 <= i < |catalog| ==> catalog[i].id != id
    ensures r.Some? ==> exists i :: 0 <= i < |catalog| && catalog[i] == r.value && r.value.id == id
                                   && forall j :: 0 <= j < i ==> catalog[j].id != id
  {
    Find(catalog, (m: Movie) => m.id == id)
  }

  /** `getMoviesByGenre`: the catalog movies listing `genre`, in catalog order. */
  function GetMoviesByGenre(catalog: seq<Movie>, genre: string): (r: seq<Movie>)
    ensures forall m :: m in r <==> m in catalog && genre in m.genre
    ensures multiset(r) <= multiset(catalog)
  {
    Filter(catalog, (m: Movie) => genre in m.genre)
  }

  /** `getDirectorMovies`: the catalog movies by `director`, in catalog order. */
  function GetDirectorMovies(catalog: seq<Movie>, director: string): (r: seq<Movie>)
    ensures forall m :: m in r <==> m in catalog && m.director == director
    ensures multiset(r) <= multiset(catalog)
  {
    Filter(catalog, (m: Movie) => m.director == director)
  }

  /** `getMoviesByDecade`: the catalog movies whose year lies between the two
      bounds, both included. */
  function GetMoviesByDecade(catalog: seq<Movie>, startYear: int, endYear: int): (r: seq<Movie>)
    ensures forall m :: m in r <==> m in catalog && startYear <= m.year <= endYear
    ensures multiset(r) <= multiset(catalog)
  {
    Filter(catalog, (m: Movie) => startYear <= m.year <= endYear)
  }

  /** The movies whose ids are not in the watched list, in order: the
      unwatched-movie filter both recommenders apply. */
  function UnwatchedAmong(movies: seq<Movie>, watched: seq<string>): (r: seq<Movie>)
    ensures forall m :: m in r <==> m in movies && m.id !in watched
    ensures multiset(r) <= multiset(movies)
  {
    Filter(movies, (m: Movie) => m.id !in watched)
  }

  // ---------------------------------------------------------------------------
  // Sorted listings

  ghost predicate GenreListed(catalog: seq<Movie>, g: string) {
    exists m :: m in catalog && g in m.genre
  }

  ghost predicate DirectorListed(catalog: seq<Movie>, d: string) {
    exists m :: m in catalog && m.director == d
  }

  /** One of the trimmed parts of a movie's comma-separated country field. */
  ghost predicate CountryOf(m: Movie, c: string) {
    exists p :: p in Split(m.country, ", ") && c == Trim(p)
  }

  ghost predicate CountryListed(catalog: seq<Movie>, c: string) {
    exists m :: m in catalog && CountryOf(m, c)
  }

  /** The label of the decade a year falls in, such as "1970s". */
  function DecadeLabel(year: int): (r: string)
    ensures |r| > 0 && r[|r| - 1] == 's'
  {
    IntToString((year / 10) * 10) + "s"
  }

  ghost predicate DecadeOf(m: Movie, d: string) {
    d == DecadeLabel(m.year)
  }

  ghost predicate DecadeListed(catalog: seq<Movie>, d: string) {
    exists m :: m in catalog && DecadeOf(m, d)
  }

  /** `getAllGenres`: every genre of every movie, once each, in sorted order. */
  method GetAllGenres(catalog: seq<Movie>) returns (r: seq<string>)
    ensures StrictlySorted(r)
    ensures forall g :: g in r <==> GenreListed(catalog, g)
  {
    var seen: seq<string> := [];
    for i := 0 to |catalog|
      invariant Distinct(seen)
      invariant forall g :: g in seen <==> exists k :: 0 <= k < i && g in catalog[k].genre
    {
      var genres := catalog[i].genre;
      for j := 0 to |genres|
        invariant Distinct(seen)
        invariant forall g :: g in seen <==> (exists k :: 0 <= k < i && g in catalog[k].genre) || g in genres[..j]
      {
        assert genres[..j + 1] == genres[..j] + [genres[j]];
        seen := SetAdd(seen, genres[j]);
      }
      assert genres[..|genres|] == genres;
    }
    r := SortStrings(seen);
    forall g ensures g in r <==> GenreListed(catalog, g) {
      if GenreListed(catalog, g) {
        var m :| m in catalog && g in m.genre;
        var k :| 0 <= k < |catalog| && catalog[k] == m;
      }
    }
  }

  /** `getAllDirectors`: every director, once each, in sorted order. */
  method GetAllDirectors(catalog: seq<Movie>) returns (r: seq<string>)
    ensures StrictlySorted(r)
    ensures forall d :: d in r <==> DirectorListed(catalog, d)
  {
    var seen: seq<string> := [];
    for i := 0 to |catalog|
      invariant Distinct(seen)
      invariant forall d :: d in seen <==> exists k :: 0 <= k < i && catalog[k].director == d
    {
      seen := SetAdd(seen, catalog[i].director);
    }
    r := SortStrings(seen);
    forall d ensures d in r <==> DirectorListed(catalog, d) {
      if DirectorListed(catalog, d) {
        var m :| m in catalog && m.director == d;
        var k :| 0 <= k < |catalog| && catalog[k] == m;
      }
    }
  }

  /** The inner loop of `getAllCountries`: the trimmed parts added to the
      running list, once each. */
  method AddCountries(seen: seq<string>, parts: seq<string>) returns (r: seq<string>)
    requires Distinct(seen)
    ensures Distinct(r)
    ensures forall c :: c in r <==> c in seen || exists p :: p in parts && c == Trim(p)
  {
    r := seen;
    for j := 0 to |parts|
      invariant Distinct(r)
      invariant forall c :: c in r <==> c in seen || exists p :: p in parts[..j] && c == Trim(p)
    {
      assert parts[..j + 1] == parts[..j] + [parts[j]];
      r := SetAdd(r, Trim(parts[j]));
    }
    assert parts[..|parts|] == parts;
  }

  /** `getAllCountries`: every country named in a movie's comma-separated
      country field, trimmed, once each, in sorted order. */
  method GetAllCountries(catalog: seq<Movie>) returns (r: seq<string>)
    ensures StrictlySorted(r)
    ensures forall c :: c in r <==> CountryListed(catalog, c)
  {
    var seen: seq<string> := [];
    for i := 0 to |catalog|
      invariant Distinct(seen)
      invariant forall c :: c in seen <==> exists k :: 0 <= k < i && CountryOf(catalog[k], c)
    {
      seen := AddCountries(seen, Split(catalog[i].country, ", "));
    }
    r := SortStrings(seen);
    forall c ensures c in r <==> CountryListed(catalog, c) {
      if CountryListed(catalog, c) {
        var m :| m in catalog && CountryOf(m, c);
        var k :| 0 <= k < |catalog| && catalog[k] == m;
      }
    }
  }

  /** One step of `getDecadesList`: the movie's decade label added to the
      running set. */
  method AddDecade(seen: seq<string>, m: Movie) returns (r: seq<string>)
    requires Distinct(seen)
    ensures Distinct(r)
    ensures forall d :: d in r <==> d in seen || DecadeOf(m, d)
  {
    r := SetAdd(seen, DecadeLabel(m.year));
  }

  /** `getDecadesList`: the decade label of every movie's year, once each,
      in (string) sorted order. */
  method GetDecadesList(catalog: seq<Movie>) returns (r: seq<string>)
    ensures StrictlySorted(r)
    ensures forall d :: d in r <==> DecadeListed(catalog, d)
  {
    var seen: seq<string> := [];
    for i := 0 to |catalog|
      invariant Distinct(seen)
      invariant forall d :: d in seen <==> exists k :: 0 <= k < i && DecadeOf(catalog[k], d)
    {
      seen := AddDecade(seen, catalog[i]);
    }
    r := SortStrings(seen);
    forall d ensures d in r <==> DecadeListed(catalog, d) {
      if DecadeListed(catalog, d) {
        var m :| m in catalog && DecadeOf(m, d);
        var k :| 0 <= k < |catalog| && catalog[k] == m;
      }
    }
  }

  // ---------------------------------------------------------------------------
  // filterMovies

  /** The optional criteria of `filterMovies`; an absent or empty string
      criterion is not applied. */
  datatype FilterOptions = FilterOptions(
    genre: Option<string>,
    director: Option<string>,
    decade: Option<string>,
    country: Option<string>,
    searchTerm: Option<string>)

  predicate Given(o: Option<string>) {
    o.Some? && o.value != ""
  }

  predicate GenreMatches(opts: FilterOptions, m: Movie) {
    !Given(opts.genre) || opts.genre.value in m.genre
  }

  predicate DirectorMatches(opts: FilterOptions, m: Movie) {
    !Given(opts.director) || m.director == opts.director.value
  }

  /** The decade criterion is a label such as "1970s", read with `parseInt`:
      half-open `[start, start + 10)`, and nothing matches a label that does
      not start with a number. */
  predicate DecadeMatches(opts: FilterOptions, m: Movie) {
    !Given(opts.decade) ||
    (var start := ParseInt(opts.decade.value);
     start.Some? && start.value <= m.year < start.value + 10)
  }

  /** The country criterion is a substring of the country field. */
  predicate CountryMatches(opts: FilterOptions, m: Movie) {
    !Given(opts.country) || Includes(m.country, opts.country.value)
  }

  /** The search term, lower-cased, occurs in the lower-cased title, director,
      synopsis or a cast member. */
  predicate SearchMatches(opts: FilterOptions, m: Movie) {
    !Given(opts.searchTerm) ||
    (var term := ToLower(opts.searchTerm.value);
     || Includes(ToLower(m.title), term)
     || Includes(ToLower(m.director), term)
     || Includes(ToLower(m.synopsis), term)
     || exists actor :: actor in m.cast && Includes(ToLower(actor), term))
  }

  predicate Matches(opts: FilterOptions, m: Movie) {
    GenreMatches(opts, m) && DirectorMatches(opts, m) && DecadeMatches(opts, m)
    && CountryMatches(opts, m) && SearchMatches(opts, m)
  }

  /** `filterMovies`: the catalog movies that meet every given criterion, in
      catalog order, narrowed one criterion at a time. */
  method FilterMovies(catalog: seq<Movie>, opts: FilterOptions) returns (r: seq<Movie>)
    ensures r == Filter(catalog, (m: Movie) => Matches(opts, m))
  {
    var filtered := catalog;
    // `filtered` is always the catalog filtered by the criteria applied so far.
    ghost var p: Movie -> bool := (m: Movie) => true;
    FilterAll(catalog, p);

    ghost var q: Movie -> bool := (m: Movie) => GenreMatches(opts, m);
    if Given(opts.genre) {
      var byGenre := (m: Movie) => opts.genre.value in m.genre;
      Narrow(catalog, p, byGenre, q);
      filtered := Filter(filtered, byGenre);
    } else {
      FilterExt(catalog, p, q);
    }
    p := q;

    q := (m: Movie) => GenreMatches(opts, m) && DirectorMatches(opts, m);
    if Given(opts.director) {
      var byDirector := (m: Movie) => m.director == opts.director.value;
      Narrow(catalog, p, byDirector, q);
      filtered := Filter(filtered, byDirector);
    } else {
      FilterExt(catalog, p, q);
    }
    p := q;

    q := (m: Movie) => GenreMatches(opts, m) && DirectorMatches(opts, m) && DecadeMatches(opts, m);
    if Given(opts.decade) {
      var decadeStart := ParseInt(opts.decade.value);
      var byDecade := (m: Movie) => decadeStart.Some? && decadeStart.value <= m.year < decadeStart.value + 10;
      Narrow(catalog, p, byDecade, q);
      filtered := Filter(filtered, byDecade);
    } else {
      FilterExt(catalog, p, q);
    }
    p := q;

    q := (m: Movie) => GenreMatches(opts, m) && DirectorMatches(opts, m) && DecadeMatches(opts, m)
                       && CountryMatches(opts, m);
    if Given(opts.country) {
      var byCountry := (m: Movie) => Includes(m.country, opts.country.value);
      Narrow(catalog, p, byCountry, q);
      filtered := Filter(filtered, byCountry);
    } else {
      FilterExt(catalog, p, q);
    }
    p := q;

    q := (m: Movie) => Matches(opts, m);
    if Given(opts.searchTerm) {
      var term := ToLower(opts.searchTerm.value);
      var bySearch := (m: Movie) =>
        || Includes(ToLower(m.title), term)
        || Includes(ToLower(m.director), term)
        || Includes(ToLower(m.synopsis), term)
        || exists actor :: actor in m.cast && Includes(ToLower(actor), term);
      Narrow(catalog, p, bySearch, q);
      filtered := Filter(filtered, bySearch);
    } else {
      FilterExt(catalog, p, q);
    }
    r := filtered;
  }

  /** Applying one more filter to a filtered list is filtering by the
      conjunction. */
  lemma Narrow<T(!new)>(s: seq<T>, p: T -> bool, c: T -> bool, q: T -> bool)
    requires forall x :: q(x) == (p(x) && c(x))
    ensures Filter(Filter(s, p), c) == Filter(s, q)
  {
    FilterFilter(s, p, c);
    FilterExt(s, x => p(x) && c(x), q);
  }

  /** With no criterion given, `filterMovies` returns the whole catalog. */
  lemma NoCriteriaKeepsAll(catalog: seq<Movie>, opts: FilterOptions)
    requires !Given(opts.genre) && !Given(opts.director) && !Given(opts.decade)
    requires !Given(opts.country) && !Given(opts.searchTerm)
    ensures Filter(catalog, (m: Movie) => Matches(opts, m)) == catalog
  {
    FilterAll(catalog, (m: Movie) => Matches(opts, m));
  }

  /** A movie passes the filter exactly when it meets every given criterion. */
  lemma FilterMoviesMembers(catalog: seq<Movie>, opts: FilterOptions, m: Movie)
    ensures m in Filter(catalog, (m: Movie) => Matches(opts, m)) <==>
      m in catalog
      && (Given(opts.genre) ==> opts.genre.value in m.genre)
      && (Given(opts.director) ==> m.director == opts.director.value)
      && (Given(opts.decade) ==> DecadeMatches(opts, m))
      && (Given(opts.country) ==> Includes(m.country, opts.country.value))
      && (Given(opts.searchTerm) ==> SearchMatches(opts, m))
  {
  }

  /** Filtering by one of the labels `getDecadesList` produces selects exactly
      the movies of that decade: the label of year `y` reads back, through
      `parseInt`, as the first year of its decade. */
  lemma DecadeLabelSelectsDecade(y: int, m: Movie)
    ensures DecadeMatches(FilterOptions(None, None, Some(DecadeLabel(y)), None, None), m)
        <==> DecadeLabel(m.year) == DecadeLabel(y)
  {
    var d := (y / 10) * 10;
    ParseIntOfIntToString(d, "s");
    var e := (m.year / 10) * 10;
    ParseIntOfIntToString(e, "s");
    DecadeStart(m.year);
    if d <= m.year < d + 10 {
      DivUnique(m.year, y / 10);
    }
  }

  /** A decade label reads back, through `parseInt`, as a multiple of ten
      at most the year and within ten of it. */
  lemma DecadeLabelReadsBack(year: int)
    ensures var start := ParseInt(DecadeLabel(year));
      start.Some? && start.value % 10 == 0 && start.value <= year < start.value + 10
  {
    ParseIntOfIntToString((year / 10) * 10, "s");
    DecadeStart(year);
  }

  /** The first year of the decade of `x` is at most `x` and within ten of it. */
  lemma DecadeStart(x: int)
    ensures (x / 10) * 10 <= x < (x / 10) * 10 + 10
    ensures ((x / 10) * 10) % 10 == 0
  {
    var q := x / 10;
    assert (q * 10) % 10 == 0 by {
      assert q * 10 == 10 * q + 0;
    }
  }

  lemma DivUnique(x: int, a: int)
    requires 10 * a <= x < 10 * a + 10
    ensures x / 10 == a
  {
    var q := x / 10;
    assert x == 10 * q + x % 10;
  }

  /** The decade criterion with a listed label agrees with `getMoviesByDecade`
      over that decade's ten years. */
  lemma DecadeFilterIsMoviesByDecade(catalog: seq<Movie>, y: int)
    ensures var d := (y / 10) * 10;
      Filter(catalog, (m: Movie) => Matches(FilterOptions(None, None, Some(DecadeLabel(y)), None, None), m))
      == GetMoviesByDecade(catalog, d, d + 9)
  {
    var d := (y / 10) * 10;
    var opts := FilterOptions(None, None, Some(DecadeLabel(y)), None, None);
    ParseIntOfIntToString(d, "s");
    assert ParseInt(DecadeLabel(y)) == Some(d);
    FilterExt(catalog, (m: Movie) => Matches(opts, m), (m: Movie) => d <= m.year <= d + 9);
  }
}
