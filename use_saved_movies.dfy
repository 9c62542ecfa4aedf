/**
 * The `useSavedMovies` hook: an in-memory mirror of the watchlist, with
 * `loading` and `error` flags, layered over the storage service. Each state
 * cell of the hook is a field of `SavedMoviesHook`; each awaited storage call
 * inside an operation takes a flag saying whether the medium succeeds.
 */
module UseSavedMovies {
  import opened Wrappers
  import opened SavedMovies

  class SavedMoviesHook {
    /** The storage service the hook delegates to. */
    const service: SavedMoviesService
    /** The mirror the UI reads. */
    var savedMovies: seq<SavedMovie>
    var loading: bool
    var error: Option<string>

    /** The stored watchlist and the mirror both have pairwise-distinct ids. */
    ghost predicate Valid()
      reads this, service
    {
      service.Valid() && DistinctIds(savedMovies)
    }

    /** The hook's initial state: an empty mirror, loading, no error. */
    constructor (service: SavedMoviesService)
      ensures this.service == service
      ensures savedMovies == [] && loading && error == None
      ensures service.Valid() ==> Valid()
    {
      this.service := service;
      savedMovies := [];
      loading := true;
      error := None;
    }

    /**
     * `loadSavedMovies`: replaces the mirror wholesale with what the service
     * loads and ends with `loading` false. The service never fails, so
     * `error` always ends cleared, and a failed read empties the mirror.
     */
    method LoadSavedMovies(readOk: bool)
      modifies this
      ensures savedMovies == LoadedList(service.Stored(), readOk)
      ensures readOk && service.Stored().Some? && service.Stored().value.Json? ==>
        savedMovies == service.Stored().value.movies
      ensures !loading && error == None
      ensures old(Valid()) ==> Valid()
    {
      loading := true;
      error := None;
      var movies := service.GetSavedMovies(readOk);
      savedMovies := movies;
      loading := false;
      if old(Valid()) {
        LoadedListDistinct(service.Stored(), readOk);
      }
    }

    /** `refreshSavedMovies`: a manual reload. */
    method RefreshSavedMovies(readOk: bool)
      modifies this
      ensures savedMovies == LoadedList(service.Stored(), readOk)
      ensures !loading && error == None
      ensures old(Valid()) ==> Valid()
    {
      LoadSavedMovies(readOk);
    }

    /**
     * `saveMovie`: returns the service's result and, on success only, reloads
     * the mirror from storage; on failure neither the mirror, the flags nor
     * the storage change. After a successful save and reload, the mirror
     * holds the movie's id, exactly once when the store was consistent.
     */
    method SaveMovie(movie: SavedMovie, readOk: bool, writeOk: bool, reloadOk: bool) returns (ok: bool)
      modifies this, service
      ensures ok == (HasId(LoadedList(old(service.Stored()), readOk), movie.id) || writeOk)
      ensures ok ==> service.Stored() == Some(Json(AddIfAbsent(LoadedList(old(service.Stored()), readOk), movie)))
      ensures ok ==> savedMovies == LoadedList(service.Stored(), reloadOk) && !loading && error == None
      ensures !ok ==> savedMovies == old(savedMovies) && loading == old(loading) && error == old(error)
      ensures HasId(LoadedList(old(service.Stored()), readOk), movie.id) || !writeOk ==>
        service.storage == old(service.storage)
      ensures service.storage - {SAVED_MOVIES_KEY} == old(service.storage) - {SAVED_MOVIES_KEY}
      ensures ok && reloadOk ==> IsMovieSaved(movie.id)
      ensures ok && reloadOk && old(service.Valid()) ==> CountId(savedMovies, movie.id) == 1
      ensures old(Valid()) ==> Valid()
    {
      ghost var prior := LoadedList(service.Stored(), readOk);
      ghost var wasValid := service.Valid();
      if wasValid {
        LoadedListDistinct(service.Stored(), readOk);
      }
      ok := service.SaveMovie(movie, readOk, writeOk);
      if ok {
        LoadSavedMovies(reloadOk);
        if reloadOk {
          if HasId(prior, movie.id) {
            if wasValid {
              AddIfAbsentHoldsExactlyOne(prior, movie);
            }
          } else {
            CountIdConcat(prior, [movie], movie.id);
            assert [movie][1..] == [];
          }
        }
      }
    }

    /**
     * `removeMovie`: returns the service's result and, on success only,
     * reloads the mirror from storage, which then no longer holds the id;
     * on failure neither the mirror, the flags nor the storage change.
     */
    method RemoveMovie(movieId: int, readOk: bool, writeOk: bool, reloadOk: bool) returns (ok: bool)
      modifies this, service
      ensures ok == writeOk
      ensures ok ==> service.Stored() == Some(Json(WithoutId(LoadedList(old(service.Stored()), readOk), movieId)))
      ensures ok ==> savedMovies == LoadedList(service.Stored(), reloadOk) && !loading && error == None
      ensures ok && reloadOk ==> savedMovies == WithoutId(LoadedList(old(service.Stored()), readOk), movieId)
      ensures ok ==> !IsMovieSaved(movieId)
      ensures !ok ==> savedMovies == old(savedMovies) && loading == old(loading) && error == old(error)
      ensures !ok ==> service.storage == old(service.storage)
      ensures service.storage - {SAVED_MOVIES_KEY} == old(service.storage) - {SAVED_MOVIES_KEY}
      ensures old(Valid()) ==> Valid()
    {
      ok := service.RemoveMovie(movieId, readOk, writeOk);
      if ok {
        LoadSavedMovies(reloadOk);
      }
    }

    /**
     * `isMovieSaved`: answered from the mirror alone, never from storage.
     */
    function IsMovieSaved(movieId: int): (saved: bool)
      reads this
      ensures saved <==> exists i :: 0 <= i < |savedMovies| && savedMovies[i].id == movieId
    {
      HasId(savedMovies, movieId)
    }

    /**
     * `clearAllSavedMovies`: on success the key is deleted and the mirror is
     * set to the empty list directly, without a reload; on failure nothing
     * changes. `loading` and `error` are never touched.
     */
    method ClearAllSavedMovies(removeOk: bool) returns (ok: bool)
      modifies this, service
      ensures ok == removeOk
      ensures ok ==> savedMovies == [] && service.Stored() == None
      ensures ok ==> savedMovies == LoadedList(service.Stored(), true)
      ensures !ok ==> savedMovies == old(savedMovies) && service.storage == old(service.storage)
      ensures service.storage == if ok then old(service.storage) - {SAVED_MOVIES_KEY} else old(service.storage)
      ensures loading == old(loading) && error == old(error)
      ensures old(Valid()) ==> Valid()
    {
      ok := service.ClearAllSavedMovies(removeOk);
      if ok {
        savedMovies := [];
      }
    }
  }
}
