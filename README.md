# Manga catalogue web app: a verified model of its core

This project models, in Dafny, the parts of the manga catalogue application
that hold logic:

- **The remote fetch, normalise and cache layer** (`RemoteMangaService`).
  `list($page)`, `get($mangaId)` and `getChapter($chapterId)` each build a
  cache key from a fixed prefix and the argument. They run Laravel's
  `Cache::remember` with an expiry of 60 s, 5 min or 10 min. On a miss they
  call the upstream API with at most two attempts and normalise the decoded
  body with `$json['data'] ?? $json ?? []`. When the HTTP layer throws, they
  log once and fall back to `[]`.
  The model is a class `RemoteMangaService` that holds the cache map, the log
  and a ghost trace of upstream attempts. The retry is a method with a loop,
  `Fetch`. Every method is specified by the pure function `Serve`, and the
  promised properties are lemmas about `Serve`.
- **The page props of `MangaController`** (`MangaPages`): the Home page's
  three popular lists, and the genre page's title (`ucfirst`) and its
  defaulted fields.
- **Bookmarks and reading history** (`Bookmarks`, `ReadingHistories`):
  tables keyed by `(user_id, comic_api_slug)`. Each is a controller class
  that owns the table. Eloquent's `where`, `first`, `updateOrCreate` and
  `delete` are defined once, generically, in `Tables`. The Laravel validation
  rules `required`, `string` and `integer` are in `Validation`.
- **Google sign-in** (`SocialUsers`): find by Google id, else link by email,
  else create.

The clock, the upstream API and the base URL are parameters. The upstream is
a function from a request and an attempt number to either a transport failure
or a response with a status and a decoded JSON body.

Points where the code's behaviour is easy to misread:

- There are at most **two** attempts: the first argument of
  `Http::retry(2, 100)` is the number of attempts, not a count of retries on
  top of the first.
- **A failure is cached.** The `try/catch` sits inside the remember closure,
  so the fallback `[]` is stored for the kind's full TTL like any other value
  (`ServeWhenUpstreamFails`, `ServeTwiceWithinTtl`).
- An object without a `data` field, such as `{"unexpected":"shape"}`, comes
  back whole. It does not become `[]` (`NormalizeWithoutData`).
- A value that is not an array is cached and then raises a `TypeError`
  because of the declared `: array` return type. This applies to a JSON
  scalar, or to a scalar under `data` (`ServeScalarBody`).
- The item path is not escaped. An item id `chapter/X` reaches the chapter
  endpoint of `X`, while keeping its own cache entry
  (`ItemPathCanReachChapterEndpoint`).

## Model

| member | source | states |
|---|---|---|
| `RemoteMangaProperties.CacheKeyInjective` | app/Services/RemoteMangaService.php:21-63 | two calls share a cache key exactly when they are the same kind with the same argument; the list, item and chapter prefixes never collide |
| `RemoteManga.CacheKey` | app/Services/RemoteMangaService.php:21-63 | the cache key of a call: its kind's prefix followed by the page text or the id; defined by its body, and `CacheKeyInjective` and `KeyShape` state its properties |
| `RemoteManga.Ttl` | app/Services/RemoteMangaService.php:23-65 | the expiry of each kind: 60 s for a list page, 300 s for an item, 600 s for a chapter; defined by its body, and `ServeOnMiss` states its effect |
| `RemoteManga.UpstreamRequest` | app/Services/RemoteMangaService.php:28-70 | the URL and query of each kind's upstream call; defined by its body, and `List`, `Get`, `GetChapter` and `ItemPathCanReachChapterEndpoint` state it |
| `RemoteMangaProperties.KeyShape` | app/Services/RemoteMangaService.php:21-63 | every key is longer than the shared 13-character `remote_manga_`; its 14th character tells the kind apart; the rest is the page text or the id |
| `Decimal.IntToDecimalInjective` | app/Services/RemoteMangaService.php:21 | the decimal text of the page number in the list key is injective, negative pages included |
| `Decimal.DigitsValueOfNatToDecimal` | app/Services/RemoteMangaService.php:21 | reading the digits of a number back gives the number (decimal text round-trips) |
| `Decimal.NatToDecimalOfDigitsValue` | app/Http/Controllers/ReadingHistoryController.php:30 | a digit string without a leading zero is the decimal text of its value, the converse of the round trip |
| `Decimal.NatToDecimal` | app/Services/RemoteMangaService.php:21 | the text of a number is a non-empty digit string that starts with 0 only for zero |
| `RemoteManga.FirstSuccess` | app/Services/RemoteMangaService.php:25-30 | the attempt it names is successful (2xx) and every earlier one failed; it names none exactly when all attempts in the budget fail |
| `RemoteManga.Fetch` | app/Services/RemoteMangaService.php:25-30 | makes between 1 and 2 attempts and stops at the first 2xx response; it fails exactly when every attempt in the budget failed |
| `RemoteManga.Normalize` | app/Services/RemoteMangaService.php:32 | yields the `data` field when it is present and non-null, else the whole body when that is non-null, else `[]`; the result is never null |
| `RemoteManga.Successful` | app/Services/RemoteMangaService.php:25-30 | the success test behind `retry` and `throw()`: a response with status 200 to 299; defined by its body, and `FirstSuccess` and `Fetch` state its use; the 1xx/3xx difference is under "Left out" |
| `RemoteManga.ClosureValue` | app/Services/RemoteMangaService.php:24-36 | the value the closure hands to the cache: the normalised body after a success, `[]` after a failure; defined by its body, and `ServeWhenUpstreamFails` and `ServeWhenUpstreamAnswers` state it |
| `RemoteManga.FailureLog` | app/Services/RemoteMangaService.php:34-76 | the `Log::error` record of each kind: `RemoteMangaService::list failed` with no id, `::get failed` with the manga id, `::getChapter failed` with the chapter id; defined by its body, and `ServeWhenUpstreamFails` and `Scenario` state when it is written |
| `RemoteManga.AsArrayReturn` | app/Services/RemoteMangaService.php:19-61 | the declared `: array` return type: an array is returned, anything else raises a TypeError; defined by its body, and `ServeOnHit`, `ServeWhenUpstreamAnswers` and `ServeScalarBody` state its effect |
| `RemoteManga.Serve` | app/Services/RemoteMangaService.php:23-37 | `Cache::remember` with its closure: a hit returns the stored value; a miss fetches, normalises or falls back to `[]`, logs on failure and stores the value; defined by its body, and the `RemoteMangaProperties` lemmas state its behaviour |
| `RemoteManga.RemoteMangaService.constructor` | app/Services/RemoteMangaService.php:12-17 | starts with the given base URL, an empty cache and an empty log |
| `RemoteManga.RemoteMangaService.Remember` | app/Services/RemoteMangaService.php:23-37 | the new cache, the result, the appended log records and the upstream attempts (each to the kind's URL) are those of `Serve`; the cache stays free of nulls |
| `RemoteManga.RemoteMangaService.List` | app/Services/RemoteMangaService.php:19-38 | `list($page)`: `Serve` for the page, with attempts sent to `base/api/v1/manga?page=p` |
| `RemoteManga.RemoteMangaService.Get` | app/Services/RemoteMangaService.php:40-59 | `get($mangaId)`: `Serve` for the item, with attempts sent to `base/api/v1/manga/{id}` |
| `RemoteManga.RemoteMangaService.GetChapter` | app/Services/RemoteMangaService.php:61-80 | `getChapter($chapterId)`: `Serve` for the chapter, with attempts sent to `base/api/v1/manga/chapter/{id}` |
| `RemoteMangaProperties.ServeOnHit` | app/Services/RemoteMangaService.php:23 | on an unexpired entry it returns the stored value, makes no attempt, logs nothing and leaves the cache unchanged |
| `RemoteMangaProperties.ServeOnMiss` | app/Services/RemoteMangaService.php:23 | on a missing or expired entry it makes 1 to 2 attempts, stores the closure's value with expiry now + 60/300/600 s, returns that value, logs at most once and changes no other key |
| `RemoteMangaProperties.ServeWhenUpstreamFails` | app/Services/RemoteMangaService.php:33-36 | when every attempt fails, the result is `[]`, exactly one error record naming the call is logged, 2 attempts are made and `[]` is cached for the kind's TTL |
| `RemoteMangaProperties.ServeWhenUpstreamAnswers` | app/Services/RemoteMangaService.php:25-32 | when attempt i is the first 2xx, the normalised body is cached and returned (a non-array raises a TypeError), nothing is logged and i + 1 attempts are made |
| `RemoteMangaProperties.ServeKeepsCacheValid` | app/Services/RemoteMangaService.php:23 | serving never stores null, so Laravel's "not null" hit test coincides with "present and unexpired" |
| `RemoteMangaProperties.ServeLeavesOtherQueries` | app/Services/RemoteMangaService.php:21-23 | a call never changes the entry of any different call, whatever its kind |
| `RemoteMangaProperties.ServeAfterExpiry` | app/Services/RemoteMangaService.php:23 | once the entry has expired, the next call goes upstream and renews the expiry |
| `RemoteMangaProperties.ServeTwice` | app/Services/RemoteMangaService.php:23 | a second call before the first call's entry expires returns the same result, makes no attempt and changes nothing: at most one fetch in all |
| `RemoteMangaProperties.ServeTwiceWithinTtl` | app/Services/RemoteMangaService.php:23-37 | after a first call that missed, any call within the TTL is answered from the cache; this includes a cached failure |
| `RemoteMangaProperties.NormalizeFixture` | tests/Feature/MangaControllerTest.php:13 | the fixture `{"data":[{"id":"m1","title":"M1"}]}` normalises to its list, and a bare list is taken whole |
| `RemoteMangaProperties.NormalizeWithoutData` | app/Services/RemoteMangaService.php:32 | `{"unexpected":"shape"}` and an object whose `data` is null are returned whole |
| `RemoteMangaProperties.ServeScalarBody` | app/Services/RemoteMangaService.php:19-32 | a scalar `data` raises a TypeError for the caller, yet stays cached |
| `RemoteMangaProperties.Scenario` | app/Services/RemoteMangaService.php:23-57 | list(1) answered with the fixture returns its list after one attempt; get("m1") with HTTP 500 on every attempt returns `[]` after two attempts, with one log record naming m1 |
| `RemoteMangaProperties.ItemPathCanReachChapterEndpoint` | app/Services/RemoteMangaService.php:49-70 | item id `chapter/X` produces the same upstream request as chapter `X`, yet a different cache key |
| `MangaPages.PopularItems` | app/Http/Controllers/MangaController.php:21-23 | a popular list is `raw[kind]["items"]` when that is set and non-null, else `[]`; never null |
| `MangaPages.Home` | app/Http/Controllers/MangaController.php:17-34 | the Home props hold the manga, manhwa and manhua popular lists, none of them null, with genres and newest titles passed through |
| `MangaPages.HomeOfFailedDecode` | app/Http/Controllers/MangaController.php:19-23 | a response that did not decode yields three empty lists |
| `MangaPages.Ucfirst` | app/Http/Controllers/MangaController.php:50 | same length; only an ASCII lower-case first letter changes, to its upper case; everything else is unchanged |
| `MangaPages.UcfirstIdempotent` | app/Http/Controllers/MangaController.php:50 | applying `ucfirst` twice equals applying it once |
| `MangaPages.PhpString` | app/Http/Controllers/MangaController.php:50 | passing a value to `ucfirst` raises a TypeError exactly for arrays |
| `MangaPages.Genre` | app/Http/Controllers/MangaController.php:45-58 | TypeError exactly when `genre` is an array; slug passes through; title is `ucfirst(genre ?? slug)`, with a number's decimal text and a boolean's "1" or "" as the text; items, currentPage, totalManga, hasNextPage and nextPageUrl are the response's values when set, else `[]`, 1, 0, false and null |
| `MangaPages.GenreOfFailedDecode` | app/Http/Controllers/MangaController.php:47-56 | a null response yields every default, titled `ucfirst(slug)` |
| `MangaPages.GenreKeepsFalsyValues` | app/Http/Controllers/MangaController.php:50-56 | present falsy values (`""`, 0, false) pass through and are not defaulted |
| `Validation.Required` | app/Http/Controllers/BookmarkController.php:23-25 | `required`: fails for null, a string that trims to empty, and an empty array; defined by its body, and `StoreRejectsIncomplete` and `StoreRejectsInvalid` state its effect |
| `Validation.IntLiteral` | app/Http/Controllers/ReadingHistoryController.php:30 | an accepted literal lies in the 64-bit range and is the text of its value: its decimal text, with an optional plus sign, or "-0" for zero |
| `Validation.FilterInt` | app/Http/Controllers/ReadingHistoryController.php:30 | the `integer` rule yields only 64-bit values, and text it accepts is, once trimmed, the decimal text of the value it yields, with an optional plus sign, or "-0" for zero |
| `Validation.IntLiteralOfDecimal` | app/Http/Controllers/ReadingHistoryController.php:30 | the decimal text of every 64-bit integer is accepted as an integer literal and reads back as itself |
| `Validation.FilterIntAcceptsDecimalText` | app/Http/Controllers/ReadingHistoryController.php:30 | every 64-bit integer passes `integer`, sent as a JSON number or as its decimal text, and keeps its value |
| `Validation.FilterIntRefusals` | app/Http/Controllers/ReadingHistoryController.php:30 | `"007"`, `"1.5"`, `""` and `false` fail `integer` |
| `Tables.FirstWhere` | app/Http/Controllers/BookmarkController.php:44-46 | `first()` names the first matching row; it names none exactly when no row matches |
| `Tables.Where` | app/Http/Controllers/BookmarkController.php:14 | `get()` returns exactly the matching rows, each as often as it occurs in the table |
| `Tables.UpdateOrCreate` | app/Http/Controllers/BookmarkController.php:28-37 | Eloquent `updateOrCreate`: fill the first row with the key, else append a filled new row; defined by its body, and `UpdateOrCreateSpec` states it |
| `Tables.UpdateOrCreateSpec` | app/Http/Controllers/BookmarkController.php:28-37 | `updateOrCreate` grows the table by one row exactly when no row had the key; rows with other keys are unchanged; a row with the key is the filled one; unique keys stay unique |
| `Tables.UpdateOrCreateLeavesOneRow` | app/Http/Controllers/BookmarkController.php:28-37 | with unique keys, exactly one row has the key afterwards |
| `Tables.UpdateOrCreateIdempotent` | app/Http/Controllers/BookmarkController.php:28-37 | repeating an `updateOrCreate` that writes fixed values changes nothing more |
| `Tables.RemoveAtSpec` | app/Http/Controllers/BookmarkController.php:49 | `delete()` removes exactly that row and keeps the others in order |
| `Bookmarks.StoreRejectsIncomplete` | app/Http/Controllers/BookmarkController.php:22-26 | a missing, null, blank or empty slug, title or thumbnail leaves the table unchanged |
| `Bookmarks.StoreAccepts` | app/Http/Controllers/BookmarkController.php:22-26 | the `validate` call: slug, title and thumbnail each pass `required`; defined by its body, and `StoreRejectsIncomplete` and `BookmarkController.Store` state its effect |
| `Bookmarks.Stored` | app/Http/Controllers/BookmarkController.php:20-40 | the table after `store`: unchanged when validation fails, else `updateOrCreate` on (user, slug); defined by its body, and `StoreSpec` and `StoreIdempotent` state it |
| `Bookmarks.Destroyed` | app/Http/Controllers/BookmarkController.php:42-49 | the table after `destroy` and whether a bookmark was found; defined by its body, and `DestroySpec` states it |
| `Bookmarks.DestroyReply` | app/Http/Controllers/BookmarkController.php:50-59 | the four replies of `destroy`: JSON 200 or a redirect with `message` when found, JSON 404 or a redirect with `error` when not; defined by its body, and `BookmarkController.Destroy` states which is given |
| `Bookmarks.StoreSpec` | app/Http/Controllers/BookmarkController.php:28-37 | after an accepted store there is exactly one bookmark for (user, slug), and it carries the request's title and thumbnail; the count grows by one exactly when no bookmark had that key; other keys are unchanged |
| `Bookmarks.StoreIdempotent` | app/Http/Controllers/BookmarkController.php:28-37 | repeating the same store is idempotent |
| `Bookmarks.DestroySpec` | app/Http/Controllers/BookmarkController.php:44-59 | a bookmark is found exactly when the user has one for the slug; then exactly that one row is removed, every other row stays, and none remains for the slug; otherwise nothing changes; no other user's bookmark is removed |
| `Bookmarks.BookmarkController.Index` | app/Http/Controllers/BookmarkController.php:14 | exactly the current user's bookmarks, each as often as it is stored |
| `Bookmarks.BookmarkController.Store` | app/Http/Controllers/BookmarkController.php:20-40 | accepted exactly when the three fields pass `required`; the table becomes `Stored` of the old one; one bookmark per key is kept |
| `Bookmarks.BookmarkController.Destroy` | app/Http/Controllers/BookmarkController.php:42-60 | the table becomes `Destroyed` of the old one; the reply is 200 or a redirect with a message when the bookmark was found, else 404 or a redirect with an error |
| `ReadingHistories.StoreRejectsInvalid` | app/Http/Controllers/ReadingHistoryController.php:26-31 | unless title, comic slug and chapter slug are non-blank strings and the page number passes `integer`, the table is unchanged |
| `ReadingHistories.StoreAccepts` | app/Http/Controllers/ReadingHistoryController.php:26-31 | the `validate` call: title, comic slug and chapter slug pass `required` and `string`, and the page passes `required` and `integer`; defined by its body, and `StoreRejectsInvalid` and `StoreRejectsFractionalPage` state its effect |
| `ReadingHistories.Requested` | app/Http/Controllers/ReadingHistoryController.php:35-43 | the row `updateOrCreate` writes: user, comic slug, title, chapter slug, page and `last_read_at = now`; defined by its body, and `StoreSpec` states that it is stored |
| `ReadingHistories.Recorded` | app/Http/Controllers/ReadingHistoryController.php:24-44 | the table after `store`: unchanged when validation fails, else `updateOrCreate` on (user, comic); defined by its body, and `StoreSpec` states it |
| `ReadingHistories.StoreRejectsFractionalPage` | app/Http/Controllers/ReadingHistoryController.php:30 | a page number `"1.5"` is refused |
| `ReadingHistories.StoreSpec` | app/Http/Controllers/ReadingHistoryController.php:33-44 | after an accepted store there is exactly one entry for (user, comic), holding the request's title, chapter slug and page, read at the current clock; other entries are unchanged; one row is added exactly when no entry had that key |
| `ReadingHistories.SortNewestFirst` | app/Http/Controllers/ReadingHistoryController.php:16 | the result is a permutation of the input ordered by non-increasing `last_read_at` |
| `ReadingHistories.Listed` | app/Http/Controllers/ReadingHistoryController.php:15-17 | the user's entries, each as often as in the table and no others, ordered by non-increasing `last_read_at` |
| `ReadingHistories.ReadingHistoryController.Index` | app/Http/Controllers/ReadingHistoryController.php:13-18 | exactly the current user's entries, each as often as it is stored, most recently read first |
| `ReadingHistories.ReadingHistoryController.Store` | app/Http/Controllers/ReadingHistoryController.php:24-47 | accepted exactly when validation passes; the table becomes `Recorded` of the old one at the given clock; one entry per key is kept |
| `SocialUsers.FindOrCreateSpec` | app/Services/SocialUserService.php:15-39 | a Google-id match wins, is returned, and changes nothing; otherwise an email match gets the Google id and `email_verified_at = now`, with no other row changed; otherwise a user with the profile's name, email and Google id, verified now, is appended; the returned user is in the table and has the profile's Google id |
| `SocialUsers.FindOrCreate` | app/Services/SocialUserService.php:15-53 | the three sign-in branches; defined by its body, and `FindOrCreateSpec`, `FindOrCreateGrowsOnlyOnCreate` and `FindOrCreateKeepsInvariants` state it |
| `SocialUsers.NewUser` | app/Services/SocialUserService.php:46-52 | the row `User::create` inserts: the profile's name, email and Google id, `email_verified_at = now` and the hashed password; defined by its body, and `FindOrCreateSpec` and `CreateUserFromGoogle` state it |
| `SocialUsers.FindOrCreateGrowsOnlyOnCreate` | app/Services/SocialUserService.php:38-52 | the user count grows by one in the create branch and stays the same otherwise |
| `SocialUsers.FindOrCreateKeepsInvariants` | app/Services/SocialUserService.php:18-52 | ids stay distinct and below the next id, and no Google id ends up linked to two users |
| `SocialUsers.SocialUserService.FindOrCreateFromGoogle` | app/Services/SocialUserService.php:15-39 | the table, the next id and the returned user are those of `FindOrCreate`; the primary key stays valid and no Google id is linked to two users |
| `SocialUsers.SocialUserService.CreateUserFromGoogle` | app/Services/SocialUserService.php:44-53 | for a Google id no user has yet, appends and returns a user with the profile's name, email and Google id, verified now, under the next id; both invariants are kept |

## Left out

- Real HTTP, the 100 ms pause between attempts, and the 10 s timeout. A timed-out attempt is a `ConnectionFailed` attempt of the upstream function.
- `RemoteManga.Successful`: every non-2xx reply counts as a failed attempt. In Laravel, `->throw()` fires only for 4xx and 5xx. So a 1xx or 3xx reply on any attempt ends the retries, and its body is normalised and cached with no log record. The model instead treats such a reply as a failed attempt and retries.
- The log record holds only the message and the identifier. The exception object is not modelled.
- The cache driver. The cache is a map owned by the service object rather than a process-wide store. Concurrent callers and the absence of single-flight de-duplication are outside this sequential model.
- The clock is an integer in seconds, read once per call. Sub-second precision, the time spent fetching before the value is stored, and Laravel's conversion of the expiry to a TTL in seconds are not modelled.
- The base URL's lookup in config or the environment: the base URL is a constructor parameter.
- The default argument of `list($page = 1)` is not modelled: `list()` with no argument is `List(1, …)`.
- JSON floats, object key order, and numeric-string keys. Every key the code reads is non-numeric. JSON decoding itself is out of scope: the upstream supplies the decoded value.
- `app/Services/MangaService.php` is not part of this model. It is plain HTTP pass-through, so its results enter `MangaPages` as parameters.
- `MangaController::detail`, `chapter` and `pustaka` hand the upstream value to the view unchanged, so there is nothing to state about them. Inertia rendering is not modelled either.
- Redirects and flash messages: `Destroy` reports only the status or the flash kind and the message. `Store` of bookmarks reports only whether validation passed. The validation error response is not modelled.
- Bookmark rows keep the request's JSON values as sent. The database's coercion of those values into its text columns is not modelled. Laravel's trimming and empty-to-null input middleware are not modelled either.
- `ReadingHistories.Requested`: a history row holds the page number as validated, that is, the integer the `integer` rule reads. The controller writes the raw request value, such as `"+5"` or `true`. The two agree only after the database coerces that value into its integer column, and that coercion is not modelled.
- `Validation.FilterInt`: floats such as `3.0` are not modelled, because JSON numbers are integers here. The database's 32-bit `integer` column range is not modelled either.
- Authentication: the current user id is a parameter. Reading-history routes are not part of this model.
- Auto-increment ids and the `created_at`/`updated_at` timestamps of bookmarks and histories. Rows are returned in storage order.
- `ReadingHistories.Listed`: ties in `last_read_at` are broken in one fixed way. The database may order ties differently, so only the ordering and the permutation are claimed.
- The reading-history migration and model name their columns `comic_api_id`/`chapter_api_id`. The model follows the controller's `comic_api_slug`/`chapter_api_slug`.
- The Socialite OAuth redirect and callback, and Google profiles with a null name or email.
- `Hash::make(Str::random(32))`: the password hash is an opaque parameter.
- Email uniqueness of users comes from the users migration, which is not part of this model. The model keeps only the primary-key invariant and proves that Google ids stay unique.
