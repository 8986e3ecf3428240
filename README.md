# NextFlix core, modelled in Dafny

NextFlix is a React Native movie browser. Its core is modelled here:

- **The catalog client.** Search and discover endpoints, details, and trailer selection from the movie database.
- **The personalization store.** Each user's saved movies, and the search-count ("trending") records with their top-five view.
- **The sign-in / sign-up form.** Its validation, dispatch and mode toggle.
- **The route guard.** Who is sent where.
- **The mini-player context.**
- **What a movie card derives from a movie.** Poster URI, link and year.
- **The `checkName` promise.**

Modules:

- `Wrappers`: `Option` and `Result`.
- `Seqs`: order-preserving filter and first-match search, with their lemmas. These are the semantics of a list query with equality filters and of `Array.prototype.find`.
- `JsText`: JavaScript's `String.prototype.trim` white-space set, `length` in UTF-16 code units, number-to-text, and how a template literal renders `null`.
- `UriEncoding`: `encodeURIComponent` (UTF-8, then percent-escaping of everything but the unreserved marks), and a decoder that it round-trips with.
- `Catalog`: services/api.ts.
- `Store`: services/appwrite.ts. `RecordStore` is a class holding the two collections as sequences. Its methods change them in place. Each method's new state is tied to a pure step function (`SaveMovie`, `RemoveById`, `RecordSearch`), and the lemmas are proved about those functions.
- `AuthScreen`: app/auth.tsx.
- `RouteGuard`: app/_layout.tsx.
- `MiniPlayer`: components/MiniPlayerContext.tsx.
- `MovieCard`: components/MovieCard.tsx.
- `NameCheck`: services/checkName.ts.

Effects become parameters:

- The account service's answer is an `AccountReply`.
- Whether the document database answers is a `reachable` flag. An unreachable store is the `Unreachable` error.
- `fetch` is a `server` function from URL to response.
- The authentication context's `signIn`/`signUp` is a `backend` function from call to optional error text.
- `ID.unique()` is a `freshId` argument. An id that is already in use is the `DuplicateId` error rather than a precondition.
- A database collection is a sequence in store order. Creating a document appends to it.

## Model

| member | source | states |
|---|---|---|
| Store.CurrentUser | services/appwrite.ts:48-55 | the user exactly when the account service answers, else nothing (a thrown lookup becomes `null`) |
| Store.SavedMoviesForUser | services/appwrite.ts:99-119 | no user or a failing store gives the empty list; otherwise exactly the current user's documents, each as often as it is stored |
| Store.SavedMovieIdsForUser | services/appwrite.ts:122-137 | the ids list has the same length as the user's saved list, and position by position it holds that list's movie ids |
| Store.SavedMovieIdsExact | services/appwrite.ts:122-137 | a movie id is listed iff one of the signed-in user's saved documents carries it |
| Store.SaveMovie | services/appwrite.ts:60-96 | no user: fails with "User not logged in" and changes nothing. A signed-in save against a failing store fails with that store error and changes nothing. On any failure the collection is unchanged. A returned document belongs to the user and the movie and is stored. The collection is either unchanged or extended by exactly the returned document |
| Store.SaveExistingReturnsFirst | services/appwrite.ts:71-79 | when the user has already saved the movie, the first such document is returned and nothing is written |
| Store.SaveNewAppendsOne | services/appwrite.ts:81-91 | when the user has not saved the movie, exactly one document with the fresh id and the given fields is appended and returned |
| Store.SavePreservesUniquePairs | services/appwrite.ts:71-91 | saving never creates a second document for the same user and movie |
| Store.SavePreservesDistinctIds | services/appwrite.ts:81-91 | saving keeps document ids distinct |
| Store.SaveIsIdempotent | services/appwrite.ts:60-96 | saving the same movie twice for a user (any title or poster the second time) returns the same document, leaves the collection as the first save left it, and leaves exactly one document for the pair |
| Store.RemoveById | services/appwrite.ts:141-148 | succeeds iff the store answers and a document with that id exists. A failure changes nothing. Only existing documents remain, and after success none has that id |
| Store.RemoveDeletesOnlyThat | services/appwrite.ts:141-148 | removing the k-th document's id leaves every other document, in order |
| Store.RemovePreservesDistinctIds | services/appwrite.ts:141-148 | removal keeps document ids distinct |
| Store.RecordSearch | services/appwrite.ts:153-177 | a failing store makes the call fail with that error and changes nothing. Any failure changes nothing. The collection either keeps its length or gains exactly the new record for the term |
| Store.UpdateIncrementsFirstMatch | services/appwrite.ts:155-163 | for a known term only the first matching record changes, and only its count, by one |
| Store.UpdateCreatesRecord | services/appwrite.ts:164-171 | for an unknown term one record is appended with count 1, the movie's id and title, and the poster URL built from the poster path (`null` rendered as text) |
| Store.UpdateCountsOneSearch | services/appwrite.ts:153-172 | after a successful call, the term's total count grows by exactly one and every other term's total is unchanged |
| Store.UpdatePreservesIdentity | services/appwrite.ts:153-177 | record ids stay distinct, and a term never gets a second record |
| Store.InsertByCount | services/appwrite.ts:186 | inserting into a list ordered by descending count keeps it ordered and adds exactly that record |
| Store.SortByCount | services/appwrite.ts:186 | the result is ordered by descending count and is a permutation of the input |
| Store.SortKeepsCountOrder | services/appwrite.ts:186 | the sort is stable: records already in count order, ties included, come out in store order |
| Store.SortedPrefixIsTop | services/appwrite.ts:184-187 | in a list ordered by count, no record left out of the first n has a higher count than one in them |
| Store.TrendingMovies | services/appwrite.ts:180-194 | nothing iff the store fails. Otherwise at most five records (all of them when fewer), ordered by descending count, drawn from the collection, and none left out counts more than one shown |
| Store.TrendingKeepsCountOrder | services/appwrite.ts:184-187 | records already in count order, e.g. all with one count, are shown as the first five stored |
| Store.RecordStore.SaveMovieForUser | services/appwrite.ts:60-96 | the saved collection and the result are those of `SaveMovie`. Trending records are untouched. Distinct ids are kept |
| Store.RecordStore.RemoveSavedMovie | services/appwrite.ts:141-148 | the saved collection and the result are those of `RemoveById`. Trending records are untouched. Distinct ids are kept |
| Store.RecordStore.UpdateSearchCount | services/appwrite.ts:153-177 | the trending collection and the result are those of `RecordSearch`. Saved movies are untouched. Distinct ids are kept |
| Catalog.MoviesEndpoint | services/api.ts:15-17 | an empty query gives the discover URL sorted by popularity. Any other query gives the search URL with the encoded query |
| Catalog.SearchCarriesQuery | services/api.ts:15-16 | a search URL starts with the search prefix, and the rest decodes back to exactly the query |
| Catalog.SearchQueryAddsNoParameters | services/api.ts:16 | no query, whatever it contains, puts `&`, `=`, `#`, `?`, `+` or a space into the URL |
| Catalog.SearchAndDiscoverDiffer | services/api.ts:15-17 | a non-empty query never requests the discover list |
| Catalog.FetchMovies | services/api.ts:10-30 | succeeds iff the response is ok, with its results. Otherwise fails with "Failed to fetch movies: " and the status text |
| Catalog.FetchMovieDetails | services/api.ts:68-85 | succeeds iff the response is ok, with its body. Otherwise fails with "Failed to fetch movie details: " and the status text |
| Catalog.SelectTrailer | services/api.ts:47-65 | a returned key is non-empty and belongs to some YouTube trailer |
| Catalog.OfficialTrailerFirst | services/api.ts:48-53 | with an official YouTube trailer present, the first one's key (or nothing if empty) is chosen |
| Catalog.FallbackTrailerFirst | services/api.ts:55-62 | with no official one, the first YouTube trailer's key (or nothing if empty) is chosen |
| Catalog.NoTrailerNoKey | services/api.ts:56-62 | with no YouTube trailer at all, the result is nothing |
| Catalog.FetchMovieTrailer | services/api.ts:32-66 | succeeds iff the response is ok, with the selected trailer key. Otherwise fails with "Failed to fetch movie videos" |
| UriEncoding.EncodeURIComponent | services/api.ts:16 | every output character is unreserved or `%`. A query of unreserved characters is unchanged |
| UriEncoding.Utf8RoundTrip | services/api.ts:16 | the UTF-8 encoding of any text decodes back to that text |
| UriEncoding.EncodeDecodeRoundTrip | services/api.ts:16 | percent-decoding an encoded component gives back the original text |
| JsText.TrimIsSlice | app/auth.tsx:26 | the trimmed name is the contiguous slice of the name that follows its leading white space |
| JsText.TrimHasNoOuterWhiteSpace | app/auth.tsx:26 | a non-empty trimmed name neither starts nor ends with white space |
| JsText.TrimEmptyIff | app/auth.tsx:26 | a name trims to empty iff it is all white space |
| JsText.TrimStartDropsWhiteSpace | app/auth.tsx:26 | every character removed from the front of the name is white space |
| JsText.TrimEndDropsWhiteSpace | app/auth.tsx:26 | every character removed from the end of the name is white space |
| JsText.Utf16Length | app/auth.tsx:31 | the length lies between the number of characters and twice that. It equals the character count for Basic Multilingual Plane text, and twice it for supplementary characters |
| JsText.DigitsRoundTrip | components/MovieCard.tsx:14 | the decimal text of a number reads back as that number |
| JsText.IntTextInjective | components/MovieCard.tsx:14 | different ids render as different texts |
| JsText.IntTextSign | components/MovieCard.tsx:14 | an id's text starts with '-' exactly when the id is negative |
| AuthScreen.BlankNameIsMissing | app/auth.tsx:26-29 | a sign-up with a name of only white space counts as a missing field |
| AuthScreen.SignInIgnoresName | app/auth.tsx:26 | in sign-in mode the name field plays no part in validation |
| AuthScreen.SupplementaryCharactersCountTwice | app/auth.tsx:31 | three characters outside the Basic Multilingual Plane pass the six-character minimum |
| AuthScreen.AuthForm.constructor | app/auth.tsx:16-20 | sign-in mode, empty fields, no error |
| AuthScreen.AuthForm.HandleAuth | app/auth.tsx:25-53 | a missing field: "Please fill in all fields." and no call. Otherwise a short password: "Passwords must be at least 6 characters long." and no call. Otherwise exactly one call, sign-up with the trimmed name or sign-in. A non-empty error answer is shown and nothing navigates. Otherwise the error is cleared and the form navigates to "/". The input fields are never changed |
| AuthScreen.AuthForm.ToggleMode | app/auth.tsx:111-114 | the mode flips and the error is cleared, nothing else changes |
| RouteGuard.Redirect | app/_layout.tsx:13-23 | nothing while loading. "/auth" iff settled, signed out and outside the auth group. "/" iff settled, signed in and inside it. Nothing else |
| RouteGuard.RendersChildren | app/_layout.tsx:25-29 | children are rendered iff the user lookup has settled and there is a user or the route is in the auth group |
| RouteGuard.SettledGuardShowsOrSendsToSignIn | app/_layout.tsx:8-30 | once settled, the guard renders exactly when it does not send the visitor to "/auth" |
| MiniPlayer.MiniPlayerProvider.constructor | components/MiniPlayerContext.tsx:17-18 | hidden with no video |
| MiniPlayer.MiniPlayerProvider.ShowMiniPlayer | components/MiniPlayerContext.tsx:20-23 | visible with the given video |
| MiniPlayer.MiniPlayerProvider.HideMiniPlayer | components/MiniPlayerContext.tsx:25-28 | hidden with no video, whatever the state before, so hiding twice is hiding once. A hidden player never holds a video |
| MiniPlayer.UseMiniPlayer | components/MiniPlayerContext.tsx:39-44 | the provider iff there is one, else the error "useMiniPlayer must be used within MiniPlayerProvider" |
| MovieCard.PosterUri | components/MovieCard.tsx:17-20 | a non-empty poster path on the w500 image host, else the placeholder image |
| MovieCard.Href | components/MovieCard.tsx:14 | a link under "/movie/" |
| MovieCard.HrefIdentifiesMovie | components/MovieCard.tsx:14 | different movies link to different routes |
| MovieCard.BeforeDash | components/MovieCard.tsx:54 | a prefix of the date with no '-', followed by '-' when it stops short |
| MovieCard.ReleaseYear | components/MovieCard.tsx:54 | nothing iff the date is absent, else the text before its first '-' |
| NameCheck.CheckName | services/checkName.ts:3-10 | resolves iff the name is "Pedro", with "✅ Correct! Name is " and the name. Otherwise rejects with "❌ Name was not Pedro. It was " and the name |

## Left out

- SDK plumbing is not modelled: client setup, environment configuration, request headers, console logging, JSON parsing, and the `signUp`/`login`/`logout` pass-through wrappers of services/appwrite.ts.
- Store.SavedMoviesForUser, Store.SavedMovieIdsForUser and Store.SavedMovieIdsExact list every saved document of the user. The database returns at most 25 documents per list query by default, and neither listing query in services/appwrite.ts:104-106 and 127-129 sets a limit. For a user with more than 25 saved movies, the source therefore omits some documents and ids. So the "saved implies listed" direction of Store.SavedMovieIdsExact holds only for at most 25 saved documents in the source.
- Store.RecordStore.UpdateSearchCount is atomic in the model. In the source, two concurrent searches for the same term can both read the old count or both create a record. That interleaving is not modelled.
- Store.RecordStore.SaveMovieForUser is atomic in the model. In the source the lookup and the create are separate requests, so two concurrent saves of the same movie can both create a document. Store.SavePreservesUniquePairs holds only for saves that run one at a time.
- Store.TrendingMovies breaks count ties in store order (Store.SortKeepsCountOrder). The database's own order among equal counts is not specified.
- Catalog.FetchMovies: `encodeURIComponent` throws a `URIError` on a lone UTF-16 surrogate. A Dafny `char` is always a Unicode scalar value, so the model has no such query and never rejects before the request.
- Catalog.FetchMovies, Catalog.FetchMovieDetails and Catalog.FetchMovieTrailer: `fetch` itself can reject, e.g. on a network failure. The `server` parameter always answers with a response, so that rejection is not modelled.
- MovieCard.Href: `${id}` renders numbers from 1e21 up in exponent notation, and non-integers with a fraction. JsText.IntText renders every integer as plain decimal digits, so ids of that size are not modelled.
- Store documents carry only the five projected fields. System attributes such as timestamps and permissions are not modelled.
- AuthScreen.AuthForm.HandleAuth runs as one step. The intermediate render between clearing the error and the back end's answer is not observable in the model.
- The rating `Math.round(vote_average / 2)` on the movie card is not modelled, because it is floating-point arithmetic.
- Layout, styling, the video player component, the search bar and the Tailwind configuration are presentation only.
- The data-fetching hook and the authentication context's own implementation are not part of this model. They enter only as the `server` and `backend` parameters.
- In the repository's root layout the route guard is commented out (app/_layout.tsx:37 and 43). `RouteGuard` models the guard as written, not its current use.
