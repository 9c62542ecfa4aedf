/**
 * The on-device watchlist service. The whole list of saved movies is kept,
 * JSON-encoded, under one key of an asynchronous key-value storage; every
 * mutation reads the whole list, transforms it and writes it back whole.
 *
 * The list transformations (`some`, spread-append, `filter`) are pure
 * functions here; the storage is the mutable field of `SavedMoviesService`,
 * and each storage call takes a flag saying whether the medium succeeds.
 */
module SavedMovies {
  import opened Wrappers

  /** The single storage key that holds the watchlist. */
  const SAVED_MOVIES_KEY: string := "saved_movies"

  /**
   * A saved movie. Only `id` drives behaviour; the other fields are carried
   * unchanged. `voteAverage` is a JavaScript number, here an exact real.
   */
  datatype SavedMovie = SavedMovie(
    id: int,
    title: string,
    posterPath: string,
    voteAverage: real,
    releaseDate: string,
    overview: Option<string>,
    genreIds: Option<seq<int>>)

  /**
   * A text value in the key-value storage, as the service's parser sees it.
   * JSON encoding followed by parsing is taken to be the identity, so the
   * encoding of a list is represented by the list itself.
   */
  datatype StoredText =
    | Json(movies: seq<SavedMovie>)  // the JSON encoding of a list of movies
    | Blank                          // the empty string, which is falsy
    | Unparseable                    // text on which JSON parsing throws

  // ---------------------------------------------------------------------
  // The list computations
  // ---------------------------------------------------------------------

  /** `movies.some(m => m.id === id)` */
  function HasId(movies: seq<SavedMovie>, id: int): (r: bool)
    ensures r <==> exists i :: 0 <= i < |movies| && movies[i].id == id
  {
    if movies == [] then false
    else if movies[0].id == id then true
    else
      var r := HasId(movies[1..], id);
      assert forall i :: 0 <= i < |movies[1..]| ==> movies[1..][i] == movies[i + 1];
      r
  }

  /** How many records of `movies` carry `id`. */
  function CountId(movies: seq<SavedMovie>, id: int): (n: nat)
    ensures n <= |movies|
    ensures n == 0 <==> !HasId(movies, id)
  {
    if movies == [] then 0
    else (if movies[0].id == id then 1 else 0) + CountId(movies[1..], id)
  }

  /** No two records of the list share an id. */
  predicate DistinctIds(movies: seq<SavedMovie>)
  {
    forall i, j :: 0 <= i < j < |movies| ==> movies[i].id != movies[j].id
  }

  /**
   * The list `saveMovie` stores: unchanged when a record with the movie's id
   * is already there, otherwise the movie appended at the end.
   */
  function AddIfAbsent(movies: seq<SavedMovie>, movie: SavedMovie): (r: seq<SavedMovie>)
    ensures HasId(r, movie.id)
    ensures |movies| <= |r| <= |movies| + 1 && r[..|movies|] == movies
    ensures |r| == |movies| + 1 <==> !HasId(movies, movie.id)
    ensures |r| == |movies| + 1 ==> r[|movies|] == movie
    ensures DistinctIds(movies) ==> DistinctIds(r)
  {
    if HasId(movies, movie.id) then movies
    else
      assert (movies + [movie])[|movies|] == movie;
      movies + [movie]
  }

  /** `movies.filter(m => m.id !== id)`: the list `removeMovie` stores. */
  function WithoutId(movies: seq<SavedMovie>, id: int): (r: seq<SavedMovie>)
    ensures !HasId(r, id)
    ensures |r| == |movies| - CountId(movies, id)
  {
    if movies == [] then []
    else if movies[0].id == id then WithoutId(movies[1..], id)
    else [movies[0]] + WithoutId(movies[1..], id)
  }

  /**
   * The list `getSavedMovies` yields for what is stored under the key: the
   * stored list when the read succeeds and the text parses, and the empty
   * list for a missing key, a falsy text, a parse error or a failed read.
   */
  function LoadedList(stored: Option<StoredText>, readOk: bool): (movies: seq<SavedMovie>)
  {
    if readOk && stored.Some? && stored.value.Json? then stored.value.movies else []
  }

  // ---------------------------------------------------------------------
  // Properties of the list computations
  // ---------------------------------------------------------------------

  /** Counting distributes over concatenation. */
  lemma {:induction false} CountIdConcat(a: seq<SavedMovie>, b: seq<SavedMovie>, id: int)
    ensures CountId(a + b, id) == CountId(a, id) + CountId(b, id)
  {
    if a != [] {
      assert (a + b)[1..] == a[1..] + b;
      CountIdConcat(a[1..], b, id);
    } else {
      assert a + b == b;
    }
  }

  /** A list has distinct ids iff its head's id is not in its tail and its tail has distinct ids. */
  lemma DistinctCons(head: SavedMovie, tail: seq<SavedMovie>)
    ensures DistinctIds([head] + tail) <==> !HasId(tail, head.id) && DistinctIds(tail)
  {
    var s := [head] + tail;
    if DistinctIds(s) {
      forall i, j | 0 <= i < j < |tail| ensures tail[i].id != tail[j].id {
        assert tail[i] == s[i + 1] && tail[j] == s[j + 1];
      }
      forall k | 0 <= k < |tail| ensures tail[k].id != head.id {
        assert s[0] == head && s[k + 1] == tail[k];
      }
      assert DistinctIds(tail);
    }
    if !HasId(tail, head.id) && DistinctIds(tail) {
      forall i, j | 0 <= i < j < |s| ensures s[i].id != s[j].id {
        assert s[j] == tail[j - 1];
        if i == 0 {
          assert s[i] == head;
        } else {
          assert s[i] == tail[i - 1];
        }
      }
      assert DistinctIds(s);
    }
  }

  /** A list with pairwise-distinct ids holds at most one record per id. */
  lemma {:induction false} DistinctCountAtMostOne(movies: seq<SavedMovie>, id: int)
    requires DistinctIds(movies)
    ensures CountId(movies, id) <= 1
  {
    if movies != [] {
      assert movies == [movies[0]] + movies[1..];
      DistinctCons(movies[0], movies[1..]);
      DistinctCountAtMostOne(movies[1..], id);
    }
  }

  /**
   * After `saveMovie`, a list whose ids were distinct holds exactly one
   * record with the movie's id, whether the movie was new or already there.
   */
  lemma {:induction false} AddIfAbsentHoldsExactlyOne(movies: seq<SavedMovie>, movie: SavedMovie)
    requires DistinctIds(movies)
    ensures CountId(AddIfAbsent(movies, movie), movie.id) == 1
  {
    var r := AddIfAbsent(movies, movie);
    DistinctCountAtMostOne(r, movie.id);
  }

  /** Saving is idempotent: a second save of the same id changes nothing. */
  lemma {:induction false} AddIfAbsentIdempotent(movies: seq<SavedMovie>, movie: SavedMovie, again: SavedMovie)
    requires again.id == movie.id
    ensures AddIfAbsent(AddIfAbsent(movies, movie), again) == AddIfAbsent(movies, movie)
  {
  }

  /** A record survives the filter iff it was in the list with another id. */
  lemma {:induction false} WithoutIdMembers(movies: seq<SavedMovie>, id: int)
    ensures forall m :: m in WithoutId(movies, id) <==> m in movies && m.id != id
  {
    if movies != [] {
      WithoutIdMembers(movies[1..], id);
      assert movies == [movies[0]] + movies[1..];
    }
  }

  /** Filtering distributes over concatenation, so relative order is kept. */
  lemma {:induction false} WithoutIdConcat(a: seq<SavedMovie>, b: seq<SavedMovie>, id: int)
    ensures WithoutId(a + b, id) == WithoutId(a, id) + WithoutId(b, id)
  {
    if a == [] {
      assert a + b == b;
    } else {
      assert (a + b)[0] == a[0];
      assert (a + b)[1..] == a[1..] + b;
      WithoutIdConcat(a[1..], b, id);
    }
  }

  /** Removing an id that is not in the list leaves the list as it was. */
  lemma {:induction false} WithoutAbsentIdUnchanged(movies: seq<SavedMovie>, id: int)
    requires !HasId(movies, id)
    ensures WithoutId(movies, id) == movies
  {
    if movies != [] {
      WithoutAbsentIdUnchanged(movies[1..], id);
      assert [movies[0]] + movies[1..] == movies;
    }
  }

  /** Removing is idempotent. */
  lemma WithoutIdIdempotent(movies: seq<SavedMovie>, id: int)
    ensures WithoutId(WithoutId(movies, id), id) == WithoutId(movies, id)
  {
    WithoutAbsentIdUnchanged(WithoutId(movies, id), id);
  }

  /** Removing one id leaves the count of every other id as it was. */
  lemma {:induction false} WithoutIdKeepsOtherCounts(movies: seq<SavedMovie>, id: int, other: int)
    requires other != id
    ensures CountId(WithoutId(movies, id), other) == CountId(movies, other)
  {
    if movies != [] {
      WithoutIdKeepsOtherCounts(movies[1..], id, other);
      if movies[0].id != id {
        var rest := WithoutId(movies[1..], id);
        assert ([movies[0]] + rest)[1..] == rest;
      }
    }
  }

  /** Removing keeps the ids of a list pairwise distinct. */
  lemma {:induction false} WithoutIdKeepsDistinct(movies: seq<SavedMovie>, id: int)
    requires DistinctIds(movies)
    ensures DistinctIds(WithoutId(movies, id))
  {
    if movies != [] {
      var rest := movies[1..];
      assert movies == [movies[0]] + rest;
      DistinctCons(movies[0], rest);
      WithoutIdKeepsDistinct(rest, id);
      if movies[0].id != id {
        var tail := WithoutId(rest, id);
        WithoutIdMembers(rest, id);
        DistinctCons(movies[0], tail);
      }
    }
  }

  /** Removal undoes the save of a movie that was not yet in the list. */
  lemma RemoveUndoesAdd(movies: seq<SavedMovie>, movie: SavedMovie)
    requires !HasId(movies, movie.id)
    ensures WithoutId(AddIfAbsent(movies, movie), movie.id) == movies
  {
    WithoutIdConcat(movies, [movie], movie.id);
    WithoutAbsentIdUnchanged(movies, movie.id);
  }

  /**
   * Save, remove and save again, in sequence, leave exactly one record with
   * the movie's id, whatever the list held before.
   */
  lemma AddRemoveAddHoldsExactlyOne(movies: seq<SavedMovie>, movie: SavedMovie)
    ensures CountId(AddIfAbsent(WithoutId(AddIfAbsent(movies, movie), movie.id), movie), movie.id) == 1
  {
    var removed := WithoutId(AddIfAbsent(movies, movie), movie.id);
    assert AddIfAbsent(removed, movie) == removed + [movie];
    CountIdConcat(removed, [movie], movie.id);
    assert [movie][1..] == [];
  }

  /** Whatever `getSavedMovies` yields from a consistent store has distinct ids. */
  lemma LoadedListDistinct(stored: Option<StoredText>, readOk: bool)
    requires stored.Some? && stored.value.Json? ==> DistinctIds(stored.value.movies)
    ensures DistinctIds(LoadedList(stored, readOk))
  {
  }

  // ---------------------------------------------------------------------
  // The service over the key-value storage
  // ---------------------------------------------------------------------

  /**
   * The watchlist service together with the key-value storage it persists
   * into. Every method touches `SAVED_MOVIES_KEY` only.
   */
  class SavedMoviesService {
    /** The contents of the key-value storage. */
    var storage: map<string, StoredText>

    constructor (initial: map<string, StoredText>)
      ensures storage == initial
    {
      storage := initial;
    }

    /** What is stored under the watchlist key, if anything. */
    function Stored(): (text: Option<StoredText>)
      reads this
    {
      if SAVED_MOVIES_KEY in storage then Some(storage[SAVED_MOVIES_KEY]) else None
    }

    /** The stored watchlist, when there is one, has pairwise-distinct ids. */
    ghost predicate Valid()
      reads this
    {
      Stored().Some? && Stored().value.Json? ==> DistinctIds(Stored().value.movies)
    }

    /**
     * `getSavedMovies`: the stored list, or the empty list when the key is
     * missing, the text is empty or does not parse, or the read fails. It
     * never fails and never writes.
     */
    method GetSavedMovies(readOk: bool) returns (movies: seq<SavedMovie>)
      ensures !readOk || Stored() == None ==> movies == []
      ensures readOk && Stored().Some? ==>
        movies == (if Stored().value.Json? then Stored().value.movies else [])
      ensures movies == LoadedList(Stored(), readOk)
    {
      if !readOk {
        // the storage read rejected; the error is swallowed
        return [];
      }
      var text := Stored();
      match text {
        case None => movies := [];
        case Some(Blank) => movies := [];
        case Some(Unparseable) => movies := [];  // the parse error is swallowed
        case Some(Json(list)) => movies := list;
      }
    }

    /**
     * `saveMovie`: an add-if-absent that appends at the end. A movie whose id
     * is already in the loaded list is a success without any write; otherwise
     * the result is the outcome of the write.
     */
    method SaveMovie(movie: SavedMovie, readOk: bool, writeOk: bool) returns (ok: bool)
      modifies this
      ensures ok == (HasId(LoadedList(old(Stored()), readOk), movie.id) || writeOk)
      ensures HasId(LoadedList(old(Stored()), readOk), movie.id) || !writeOk ==>
        storage == old(storage)
      ensures ok ==> Stored() == Some(Json(AddIfAbsent(LoadedList(old(Stored()), readOk), movie)))
      ensures storage - {SAVED_MOVIES_KEY} == old(storage) - {SAVED_MOVIES_KEY}
      ensures old(Valid()) ==> Valid()
    {
      var saved := GetSavedMovies(readOk);
      if HasId(saved, movie.id) {
        // already saved: success, nothing written
        return true;
      }
      var updated := saved + [movie];
      if writeOk {
        storage := storage[SAVED_MOVIES_KEY := Json(updated)];
      }
      ok := writeOk;
      if old(Valid()) {
        LoadedListDistinct(old(Stored()), readOk);
      }
    }

    /**
     * `removeMovie`: stores the loaded list with every record of that id
     * filtered out. An absent id, or an absent key, is not an error; the
     * result is the outcome of the write.
     */
    method RemoveMovie(movieId: int, readOk: bool, writeOk: bool) returns (ok: bool)
      modifies this
      ensures ok == writeOk
      ensures ok ==> Stored() == Some(Json(WithoutId(LoadedList(old(Stored()), readOk), movieId)))
      ensures !ok ==> storage == old(storage)
      ensures storage - {SAVED_MOVIES_KEY} == old(storage) - {SAVED_MOVIES_KEY}
      ensures old(Valid()) ==> Valid()
    {
      var saved := GetSavedMovies(readOk);
      var updated := WithoutId(saved, movieId);
      if writeOk {
        storage := storage[SAVED_MOVIES_KEY := Json(updated)];
      }
      ok := writeOk;
      if old(Valid()) {
        LoadedListDistinct(old(Stored()), readOk);
        WithoutIdKeepsDistinct(saved, movieId);
      }
    }

    /**
     * `isMovieSaved`: true exactly when the read succeeds and the stored list
     * holds a record with that id. It never writes.
     */
    method IsMovieSaved(movieId: int, readOk: bool) returns (saved: bool)
      ensures saved <==> (readOk && Stored().Some? && Stored().value.Json? &&
        exists i :: 0 <= i < |Stored().value.movies| && Stored().value.movies[i].id == movieId)
    {
      var movies := GetSavedMovies(readOk);
      saved := HasId(movies, movieId);
    }

    /**
     * `clearAllSavedMovies`: deletes the key, so a later load yields the
     * empty list; the result is the outcome of the delete.
     */
    method ClearAllSavedMovies(removeOk: bool) returns (ok: bool)
      modifies this
      ensures ok == removeOk
      ensures storage == if ok then old(storage) - {SAVED_MOVIES_KEY} else old(storage)
      ensures ok ==> Stored() == None && forall readOk :: LoadedList(Stored(), readOk) == []
      ensures old(Valid()) ==> Valid()
    {
      if removeOk {
        storage := storage - {SAVED_MOVIES_KEY};
      }
      ok := removeOk;
    }
  }
}
