/**
 * The session store of `src/context/auth-context.tsx`: the signed-in user
 * and the browser storage it is mirrored to. Every operation replaces the
 * user and rewrites the stored "movieUser" record; the user value changes
 * are pure functions on `User`, and the provider is a class whose methods
 * apply them to its two fields.
 */
module AuthContext {
  import opened Wrappers
  import opened Types
  import opened JsArrays
  import opened Streak

  // ---------------------------------------------------------------------------
  // The user value changes

  /** The watched list with `movieId` appended unless it is already there. */
  function WithWatchedMovie(u: User, movieId: string): (r: User)
    ensures movieId in r.watchedMovies
    ensures forall x :: x != movieId ==> (x in r.watchedMovies <==> x in u.watchedMovies)
    ensures movieId in u.watchedMovies ==> r == u
    ensures movieId !in u.watchedMovies ==> r.watchedMovies == u.watchedMovies + [movieId] && r == u.(watchedMovies := r.watchedMovies)
  {
    if movieId in u.watchedMovies then u else u.(watchedMovies := u.watchedMovies + [movieId])
  }

  /** The watched list without any occurrence of `movieId`. */
  function WithoutWatchedMovie(u: User, movieId: string): (r: User)
    ensures movieId !in r.watchedMovies
    ensures forall x :: x != movieId ==> (x in r.watchedMovies <==> x in u.watchedMovies)
    ensures r == u.(watchedMovies := r.watchedMovies)
  {
    u.(watchedMovies := RemoveAll(u.watchedMovies, movieId))
  }

  /** `user.watchlist || []`. */
  function ListOf(list: Option<seq<string>>): seq<string> {
    if list.Some? then list.value else []
  }

  /** The watchlist (empty when missing) with `movieId` appended unless it is
      already there. */
  function WithWatchlisted(u: User, movieId: string): (r: User)
    ensures r.watchlist.Some? && movieId in r.watchlist.value
    ensures forall x :: x != movieId ==> (x in r.watchlist.value <==> x in ListOf(u.watchlist))
    ensures u.watchlist.Some? && movieId in u.watchlist.value ==> r == u
    ensures r == u.(watchlist := r.watchlist)
  {
    if u.watchlist.Some? && movieId in u.watchlist.value then u
    else u.(watchlist := Some(ListOf(u.watchlist) + [movieId]))
  }

  /** The watchlist without any occurrence of `movieId`; a user without one is
      left as is. */
  function WithoutWatchlisted(u: User, movieId: string): (r: User)
    ensures u.watchlist.None? ==> r == u
    ensures u.watchlist.Some? ==> r.watchlist.Some? && movieId !in r.watchlist.value
    ensures u.watchlist.Some? ==> forall x :: x != movieId ==> (x in r.watchlist.value <==> x in u.watchlist.value)
    ensures r == u.(watchlist := r.watchlist)
  {
    if u.watchlist.None? then u else u.(watchlist := Some(RemoveAll(u.watchlist.value, movieId)))
  }

  /** `Partial<User>`: each field either absent or given. The optional fields
      can be given as `undefined`, hence the nested options. */
  datatype Patch = Patch(
    id: Option<string>,
    name: Option<string>,
    email: Option<Option<string>>,
    joinedDate: Option<string>,
    watchedMovies: Option<seq<string>>,
    watchlist: Option<Option<seq<string>>>)

  const NoChange: Patch := Patch(None, None, None, None, None, None)

  function Pick<T>(given: Option<T>, kept: T): T {
    if given.Some? then given.value else kept
  }

  /** `{ ...user, ...userData }`: every given field overrides, every other one
      is kept. */
  function Merge(u: User, p: Patch): (r: User)
    ensures p.id.Some? ==> r.id == p.id.value
    ensures p.id.None? ==> r.id == u.id
    ensures p.name.Some? ==> r.name == p.name.value
    ensures p.name.None? ==> r.name == u.name
    ensures p.email.Some? ==> r.email == p.email.value
    ensures p.email.None? ==> r.email == u.email
    ensures p.joinedDate.Some? ==> r.joinedDate == p.joinedDate.value
    ensures p.joinedDate.None? ==> r.joinedDate == u.joinedDate
    ensures p.watchedMovies.Some? ==> r.watchedMovies == p.watchedMovies.value
    ensures p.watchedMovies.None? ==> r.watchedMovies == u.watchedMovies
    ensures p.watchlist.Some? ==> r.watchlist == p.watchlist.value
    ensures p.watchlist.None? ==> r.watchlist == u.watchlist
  {
    User(Pick(p.id, u.id), Pick(p.name, u.name), Pick(p.email, u.email), Pick(p.joinedDate, u.joinedDate),
         Pick(p.watchedMovies, u.watchedMovies), Pick(p.watchlist, u.watchlist))
  }

  /** An empty patch changes nothing. */
  lemma MergeNoChange(u: User)
    ensures Merge(u, NoChange) == u
  {
  }

  /** Applying the same patch twice is applying it once. */
  lemma MergeIdempotent(u: User, p: Patch)
    ensures Merge(Merge(u, p), p) == Merge(u, p)
  {
  }

  /** Marking a movie twice is marking it once. */
  lemma WithWatchedMovieIdempotent(u: User, movieId: string)
    ensures WithWatchedMovie(WithWatchedMovie(u, movieId), movieId) == WithWatchedMovie(u, movieId)
  {
  }

  /** Marking an unwatched movie and then unmarking it restores the user, when
      the list held no duplicates of it. */
  lemma UnwatchUndoesWatch(u: User, movieId: string)
    requires movieId !in u.watchedMovies
    ensures WithoutWatchedMovie(WithWatchedMovie(u, movieId), movieId) == u
  {
    RemoveAllAppend(u.watchedMovies, [movieId], movieId);
    RemoveAllAbsent(u.watchedMovies, movieId);
    assert RemoveAll([movieId], movieId) == [];
  }

  /** Unmarking keeps the rest of the list in its order: the list is the same
      as removing from each part of any split of it. */
  lemma WithoutWatchedMovieKeepsOrder(u: User, movieId: string, a: seq<string>, b: seq<string>)
    requires u.watchedMovies == a + b
    ensures WithoutWatchedMovie(u, movieId).watchedMovies == RemoveAll(a, movieId) + RemoveAll(b, movieId)
  {
    RemoveAllAppend(a, b, movieId);
  }

  /** Adding to the watchlist twice is adding once. */
  lemma WithWatchlistedIdempotent(u: User, movieId: string)
    ensures WithWatchlisted(WithWatchlisted(u, movieId), movieId) == WithWatchlisted(u, movieId)
  {
  }

  /** Adding a movie not on the watchlist and then removing it leaves the
      watchlist as it was (an absent one becomes empty). */
  lemma UnlistUndoesList(u: User, movieId: string)
    requires movieId !in ListOf(u.watchlist)
    ensures WithoutWatchlisted(WithWatchlisted(u, movieId), movieId) == u.(watchlist := Some(ListOf(u.watchlist)))
  {
    var list := ListOf(u.watchlist);
    RemoveAllAppend(list, [movieId], movieId);
    RemoveAllAbsent(list, movieId);
    assert RemoveAll([movieId], movieId) == [];
    assert WithWatchlisted(u, movieId).watchlist == Some(list + [movieId]);
    assert RemoveAll(list + [movieId], movieId) == list;
  }

  // ---------------------------------------------------------------------------
  // The provider

  /** Whether the stored user record is the given user. */
  predicate StoredAs(store: Store, u: User) {
    UserKey in store && store[UserKey] == UserRecord(u)
  }

  /** The user the provider finds in storage when mounted; text that is not
      a user record counts as no user. */
  function StoredUser(store: Store): (r: Option<User>)
    ensures r.Some? <==> UserKey in store && store[UserKey].UserRecord?
    ensures r.Some? ==> StoredAs(store, r.value)
  {
    if UserKey in store && store[UserKey].UserRecord? then Some(store[UserKey].user) else None
  }

  /** `AuthProvider`: the `user` state and the storage it is written to. */
  class AuthProvider {
    var user: Option<User>
    var store: Store

    /** A signed-in user is what storage holds under "movieUser". */
    ghost predicate Valid()
      reads this
    {
      user.Some? ==> StoredAs(store, user.value)
    }

    /** Mounting: the stored user, if any, becomes the session's user. */
    constructor (saved: Store)
      ensures store == saved && user == StoredUser(saved)
      ensures Valid()
    {
      store := saved;
      user := StoredUser(saved);
    }

    /** `login`: a fresh user with empty lists, stored and made current. The
        id and the join date come from the clock and are parameters. */
    method Login(name: string, email: Option<string>, id: string, joinedDate: string)
      modifies this
      ensures user == Some(User(id, name, email, joinedDate, [], Some([])))
      ensures store == old(store)[UserKey := UserRecord(user.value)]
      ensures Valid()
    {
      var newUser := User(id, name, email, joinedDate, [], Some([]));
      store := store[UserKey := UserRecord(newUser)];
      user := Some(newUser);
    }

    /** `logout`: the stored record removed and the user cleared. */
    method Logout()
      modifies this
      ensures user == None && store == old(store) - {UserKey}
      ensures UserKey !in store && Valid()
    {
      store := store - {UserKey};
      user := None;
    }

    /** Replaces the user by `updated` and writes it under "movieUser". */
    method Save(updated: User)
      modifies this
      ensures user == Some(updated) && store == old(store)[UserKey := UserRecord(updated)]
      ensures Valid()
    {
      store := store[UserKey := UserRecord(updated)];
      user := Some(updated);
    }

    /** `updateUser`: a shallow merge of the patch into the user. */
    method UpdateUser(p: Patch)
      requires Valid()
      modifies this
      ensures old(user).None? ==> user == old(user) && store == old(store)
      ensures old(user).Some? ==>
        user == Some(Merge(old(user).value, p)) && store == old(store)[UserKey := UserRecord(user.value)]
      ensures Valid()
    {
      if user.None? {
        return;
      }
      Save(Merge(user.value, p));
    }

    /** `markMovieAsWatched`: a movie not yet watched is appended, stored, and
        recorded for the streak on day `today`. */
    method MarkMovieAsWatched(movieId: string, today: int)
      requires Valid()
      modifies this
      ensures old(user).None? || movieId in old(user).value.watchedMovies ==> user == old(user) && store == old(store)
      ensures old(user).Some? && movieId !in old(user).value.watchedMovies ==>
        && user == Some(WithWatchedMovie(old(user).value, movieId))
        && store == RecordMovieWatch(old(store)[UserKey := UserRecord(user.value)], user.value.id, movieId, today)
      ensures Valid()
    {
      if user.None? || movieId in user.value.watchedMovies {
        return;
      }
      var updated := WithWatchedMovie(user.value, movieId);
      Save(updated);
      KeysDistinct(updated.id, updated.id);
      store := RecordMovieWatch(store, updated.id, movieId, today);
    }

    /** `removeMovieFromWatched`: every occurrence removed, the user stored,
        and the movie's rating deleted. */
    method RemoveMovieFromWatched(movieId: string)
      requires Valid()
      modifies this
      ensures old(user).None? ==> user == old(user) && store == old(store)
      ensures old(user).Some? ==>
        && user == Some(WithoutWatchedMovie(old(user).value, movieId))
        && store == old(store)[UserKey := UserRecord(user.value)] - {RatingKey(movieId)}
      ensures Valid()
    {
      if user.None? {
        return;
      }
      Save(WithoutWatchedMovie(user.value, movieId));
      KeysDistinct(movieId, movieId);
      store := store - {RatingKey(movieId)};
    }

    /** `isMovieWatched`. */
    function IsMovieWatched(movieId: string): (r: bool)
      reads this
      ensures r <==> user.Some? && movieId in user.value.watchedMovies
    {
      user.Some? && movieId in user.value.watchedMovies
    }

    /** `addToWatchlist`: appended when absent (creating the list if missing). */
    method AddToWatchlist(movieId: string)
      requires Valid()
      modifies this
      ensures old(user).None? || (old(user).value.watchlist.Some? && movieId in old(user).value.watchlist.value) ==>
        user == old(user) && store == old(store)
      ensures old(user).Some? && !(old(user).value.watchlist.Some? && movieId in old(user).value.watchlist.value) ==>
        user == Some(WithWatchlisted(old(user).value, movieId)) && store == old(store)[UserKey := UserRecord(user.value)]
      ensures Valid()
    {
      if user.None? {
        return;
      }
      if user.value.watchlist.Some? && movieId in user.value.watchlist.value {
        return;
      }
      Save(WithWatchlisted(user.value, movieId));
    }

    /** `removeFromWatchlist`: every occurrence removed; nothing happens
        without a user or without a watchlist. */
    method RemoveFromWatchlist(movieId: string)
      requires Valid()
      modifies this
      ensures old(user).None? || old(user).value.watchlist.None? ==> user == old(user) && store == old(store)
      ensures old(user).Some? && old(user).value.watchlist.Some? ==>
        user == Some(WithoutWatchlisted(old(user).value, movieId)) && store == old(store)[UserKey := UserRecord(user.value)]
      ensures Valid()
    {
      if user.None? {
        return;
      }
      if user.value.watchlist.None? {
        return;
      }
      Save(WithoutWatchlisted(user.value, movieId));
    }

    /** `isInWatchlist`. */
    function IsInWatchlist(movieId: string): (r: bool)
      reads this
      ensures r <==> user.Some? && user.value.watchlist.Some? && movieId in user.value.watchlist.value
    {
      user.Some? && user.value.watchlist.Some? && movieId in user.value.watchlist.value
    }
  }
}
