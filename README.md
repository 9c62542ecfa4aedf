# Watchlist of the mobile movie app, in Dafny

This project models the app's on-device watchlist. The watchlist is a list of
saved-movie records. It is kept JSON-encoded under the single storage key
`saved_movies`, together with the `useSavedMovies` hook that mirrors it in memory
for the screens.

- `wrappers.dfy` declares `Option`.
- `saved_movies.dfy` (module `SavedMovies`) models `services/savedMovies.ts`:
  - the `SavedMovie` record;
  - the pure list computations: `HasId` for `some`, `AddIfAbsent` for the
    already-saved check followed by the spread-append, and `WithoutId` for `filter`;
  - the class `SavedMoviesService`. Its field `storage` is the key-value storage,
    and its methods are the five service functions.
- `use_saved_movies.dfy` (module `UseSavedMovies`) models
  `services/useSavedMovies.ts` as the class `SavedMoviesHook`. Its fields
  `savedMovies`, `loading` and `error` are the hook's state cells.

Storage failures are inputs. Each awaited storage call takes a flag saying whether
the medium succeeds: `readOk` for `getItem`, `writeOk` for `setItem`, `removeOk`
for `removeItem`, and `reloadOk` for the hook's reload after a mutation. A stored
text is either the JSON encoding of a list (`Json`), the empty string (`Blank`),
or text that `JSON.parse` rejects (`Unparseable`). Encoding then parsing is taken
to be the identity.

Two ghost predicates state the consistency invariants. `SavedMoviesService.Valid`
says the stored list has pairwise-distinct ids. `SavedMoviesHook.Valid` says that,
and also that the mirror has pairwise-distinct ids. Every mutating method preserves
the predicate of its class.

## Behaviour worth knowing

- There is no mutation queue and no staleness guard on reloads. The operations are
  sequential methods.
- `getSavedMovies` swallows every error and yields `[]`. A corrupt blob is
  therefore never reported, and the hook's `error` always ends cleared after a load.
- A failed reload does not keep the previous mirror. It replaces the mirror with
  `[]`, because the failed read yields `[]`. See `LoadSavedMovies` with
  `readOk == false`.
- A failed read inside `saveMovie` or `removeMovie` is not a failed mutation. The
  service goes on from `[]` and overwrites the stored list with `[movie]` or `[]`.
  This follows from the `SaveMovie` and `RemoveMovie` contracts with
  `readOk == false`.

## Model

| member | source | states |
|---|---|---|
| `SavedMovies.HasId` | services/savedMovies.ts:32 | true exactly when some record of the list has the id |
| `SavedMovies.AddIfAbsent` | services/savedMovies.ts:31-37 | the result holds the id; the old list is kept as a prefix; it grows by one, the movie at the end, exactly when the id was absent; distinct ids stay distinct |
| `SavedMovies.WithoutId` | services/savedMovies.ts:50 | the result no longer holds the id; its length drops by the number of records with that id |
| `SavedMovies.WithoutIdMembers` | services/savedMovies.ts:50 | a record is in the filtered list iff it was in the input with another id |
| `SavedMovies.AddIfAbsentHoldsExactlyOne` | services/savedMovies.ts:29-38 | after a save into a list with distinct ids, exactly one record carries the movie's id, whether the movie was new or already saved |
| `SavedMovies.AddIfAbsentIdempotent` | services/savedMovies.ts:31-35 | saving a second movie with the same id leaves the list as the first save left it |
| `SavedMovies.WithoutIdConcat` | services/savedMovies.ts:50 | filtering distributes over concatenation, so the kept records stay in their relative order |
| `SavedMovies.WithoutAbsentIdUnchanged` | services/savedMovies.ts:49-52 | removing an id that no record has leaves the list unchanged |
| `SavedMovies.WithoutIdIdempotent` | services/savedMovies.ts:50 | removing the same id twice is the same as removing it once |
| `SavedMovies.WithoutIdKeepsOtherCounts` | services/savedMovies.ts:50 | removing one id keeps the number of records of every other id |
| `SavedMovies.WithoutIdKeepsDistinct` | services/savedMovies.ts:49-51 | removing keeps the ids pairwise distinct |
| `SavedMovies.RemoveUndoesAdd` | services/savedMovies.ts:37-50 | removing a movie's id right after saving it as a new movie restores the list before the save |
| `SavedMovies.AddRemoveAddHoldsExactlyOne` | services/savedMovies.ts:27-56 | save, remove and save again of one movie leave exactly one record with its id, whatever the list held |
| `SavedMovies.SavedMoviesService.GetSavedMovies` | services/savedMovies.ts:16-24 | a failed read, a missing key, an empty text or an unparseable text yields `[]`; otherwise the stored list, unchanged; it never writes; the function `LoadedList` is this value as a function of the stored text and the read's outcome |
| `SavedMovies.SavedMoviesService.SaveMovie` | services/savedMovies.ts:27-44 | an already-present id is a success that writes nothing; otherwise the result is the write's outcome, and on success the key holds the loaded list with the movie appended; other keys never change; a consistent store stays consistent |
| `SavedMovies.SavedMoviesService.RemoveMovie` | services/savedMovies.ts:47-57 | the result is the write's outcome; on success the key holds the loaded list minus every record with the id, even when the key was absent; on failure storage is unchanged; a consistent store stays consistent |
| `SavedMovies.SavedMoviesService.IsMovieSaved` | services/savedMovies.ts:60-68 | true iff the read succeeds and the stored list has a record with the id; it never writes |
| `SavedMovies.SavedMoviesService.ClearAllSavedMovies` | services/savedMovies.ts:71-79 | the result is the delete's outcome; on success only the key is gone, so every later load yields `[]`; on failure storage is unchanged |
| `UseSavedMovies.SavedMoviesHook.constructor` | services/useSavedMovies.ts:12-14 | the initial state is an empty mirror, `loading` true and no error |
| `UseSavedMovies.SavedMoviesHook.LoadSavedMovies` | services/useSavedMovies.ts:17-29 | the mirror is replaced wholesale by what the service loads; `error` ends cleared and `loading` false; storage is untouched |
| `UseSavedMovies.SavedMoviesHook.RefreshSavedMovies` | services/useSavedMovies.ts:79-81 | a manual refresh has the effect of a load |
| `UseSavedMovies.SavedMoviesHook.SaveMovie` | services/useSavedMovies.ts:32-43 | returns the service's result; on success the mirror is reloaded from storage, and with a successful reload it holds the movie's id, exactly once when the store was consistent; on failure the mirror, flags and storage are unchanged; an already-saved id leaves storage unchanged; keys other than `saved_movies` never change |
| `UseSavedMovies.SavedMoviesHook.RemoveMovie` | services/useSavedMovies.ts:46-57 | returns the service's result; on success the mirror is reloaded, no longer holds the id, and equals the filtered list when the reload succeeds; on failure the mirror, flags and storage are unchanged; keys other than `saved_movies` never change |
| `UseSavedMovies.SavedMoviesHook.IsMovieSaved` | services/useSavedMovies.ts:60-62 | true iff some mirror record has the id; it reads the mirror only |
| `UseSavedMovies.SavedMoviesHook.ClearAllSavedMovies` | services/useSavedMovies.ts:65-76 | returns the service's result; on success the mirror is set to `[]` without a reload, and storage loses exactly the `saved_movies` key; on failure nothing changes; `loading` and `error` are never touched |

## Left out

- The JSON encoding is modelled as an exact round-trip. `JSON.parse` results that are valid JSON but not a list of movies are not modelled, and neither are the exceptions such a result would raise.
- The storage's asynchrony, and any interleaving of concurrent calls, are not modelled. Every operation is a sequential method.
- The React hook machinery (`useState`, `useCallback`) is not modelled. Neither is the load on mount (services/useSavedMovies.ts:84-86). The constructor gives the state before that first load.
- UseSavedMovies.SavedMoviesHook.LoadSavedMovies: the `catch` arm at services/useSavedMovies.ts:23-25 is not modelled because it cannot be reached. `getSavedMovies` never rejects, so `error` is never set to 'Failed to load saved movies', and the mirror is never left stale by a failed load.
- The `catch` arms of the hook's `saveMovie`, `removeMovie` and `clearAllSavedMovies` are not modelled, for the same reason: the service functions catch everything themselves. The same holds for the service's `isMovieSaved` catch arm.
- Logging through `console.error` is not modelled.
- `voteAverage` is an exact `real`, not a floating-point number. No operation inspects it or any other payload field.
- Ids are mathematical integers compared with `==`. JavaScript's `NaN` and non-integral numbers are not modelled.
- The network client, configuration, navigation and rendering components are not part of this model.
