/**
 * The records the core passes around: the catalog's movies (src/types/movie.ts),
 * the session's user (the `User` interface of the auth context), the streak
 * summary (`StreakData` of the streak calculator), and the browser's key-value
 * storage, whose JSON-encoded entries are modelled as typed values.
 */
module Types {
  import opened Wrappers

  /** A catalog movie; only the fields the core reads. The year is a number
      (the catalog writes it as a four-digit string) and an absent cast list
      is the empty list. */
  datatype Movie = Movie(
    id: string,
    title: string,
    year: int,
    director: string,
    country: string,
    genre: seq<string>,
    synopsis: string,
    cast: seq<string>)

  /** The session's user. `watchlist` may be missing from records stored by
      older versions, which the store's operations tolerate. */
  datatype User = User(
    id: string,
    name: string,
    email: Option<string>,
    joinedDate: string,
    watchedMovies: seq<string>,
    watchlist: Option<seq<string>>)

  /** A streak summary; dates are day numbers. */
  datatype StreakData = StreakData(
    currentStreak: nat,
    longestStreak: nat,
    lastWatchedDate: Option<int>,
    streakStartDate: Option<int>,
    today: int,
    isStreakActive: bool)

  /** One storage entry. `Raw` is a plain string (a rating, a language code,
      or text that is not the JSON of the record a reader expects); the other
      variants are well-formed JSON records. */
  datatype Value =
    | Raw(text: string)
    | UserRecord(user: User)
    | HistoryRecord(days: map<int, seq<string>>)
    | StreakRecord(streak: StreakData)

  /** The browser's local storage. */
  type Store = map<string, Value>

  const UserKey: string := "movieUser"
  const LanguageKey: string := "preferredLanguage"

  function HistoryKey(userId: string): (k: string)
    ensures |k| > 0 && k[0] == 'w'
  {
    "watch_history_" + userId
  }

  function StreakKey(userId: string): (k: string)
    ensures |k| > 0 && k[0] == 's'
  {
    "streak_data_" + userId
  }

  function RatingKey(movieId: string): (k: string)
    ensures |k| > 5 && k[0] == 'm' && k[5] == '_'
  {
    "movie_rating_" + movieId
  }

  /** The per-user and per-movie keys never collide with each other or with
      the fixed keys. */
  lemma KeysDistinct(a: string, b: string)
    ensures HistoryKey(a) != UserKey && StreakKey(a) != UserKey && RatingKey(a) != UserKey
    ensures HistoryKey(a) != StreakKey(b) && HistoryKey(a) != RatingKey(b) && StreakKey(a) != RatingKey(b)
    ensures HistoryKey(a) != LanguageKey && StreakKey(a) != LanguageKey && RatingKey(a) != LanguageKey
  {
    assert UserKey[5] == 'U' && LanguageKey[0] == 'p';
  }
}
