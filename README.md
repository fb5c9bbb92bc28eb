# year-in-mal, modelled in Dafny

year-in-mal shows a MyAnimeList user a "wrapped" summary of one year of their
anime list. This project models its core and proves properties of the model:

- **Sign-in.** The server signs the user in with the OAuth 2.0 authorization-code
  flow and PKCE (RFC 6749, RFC 7636):
  - `functions/crypto.ts` draws a 128-character code verifier by rejection sampling
    over random bytes.
  - `functions/api/login.ts` stores the verifier in a signed cookie and redirects to
    the provider.
  - `functions/api/callback.ts` checks the code and the cookie, exchanges them at the
    token endpoint, and stores the tokens in signed cookies.
  - `functions/kukkii/index.ts` reads cookies from the `Cookie` header and appends
    `Set-Cookie` headers (section 4.1 of RFC 6265).
- **Summary.** The client (`src/Wrapped.tsx`) builds the summary:
  - it filters the list to the evaluated year;
  - it groups entries by studio, genre and media type with in-place reducers;
  - it sorts those groups and lists with integer comparators;
  - it shows the first few entries of each list on a slide.

Modules, one per source concern:

| file | module | models |
|---|---|---|
| wrappers.dfy | `Wrappers` | `Option` and `Result` |
| crypto.dfy | `Crypto` | functions/crypto.ts |
| http.dfy | `Http` | the URL, `Headers` and `Response` behaviour the handlers rely on |
| environment.dfy | `Environment` | functions/env.ts |
| kukkii.dfy | `Kukkii` | functions/kukkii/index.ts |
| login.dfy | `Login` | functions/api/login.ts |
| callback.dfy | `Callback` | functions/api/callback.ts |
| anime.dfy | `Anime` | the list-entry shape of src/data.ts |
| sequences.dfy | `Sequences` | `Array.prototype.filter`, `toSorted` (a stable sort) and `slice` |
| grouping.dfy | `Grouping` | the grouping reducers of src/Wrapped.tsx and the folds that drive them |
| wrapped.dfy | `Wrapped` | the filters, comparators, year rule and slide of src/Wrapped.tsx |
| pipelines.dfy | `WrappedPipelines` | the lists `Wrapped` derives (src/Wrapped.tsx:235-298 and the score, popularity and rank slides) |

What changes state in the source is imperative in the model:

- `generateRandomString`'s loop is a method with loop invariants.
- The `Headers` list and a `Response` are classes.
- `setCookie`, `setSignedCookie` and `deleteCookie` are methods that append to the headers.
- The two handlers are methods that build a response step by step.
- The reducers are methods of a `GroupRecord` class whose record is updated in place.

Each such method is proved against a function of its inputs. The properties are proved about that function.

Foreign calls are handled as follows:

- **Random bytes.** They are a finite byte stream given as input.
- **The cookie codec and HMAC signing.** `parse`, `serialize`, `parseSigned` and
  `serializeSigned` live in a file that is not part of this model. They are a `Codec`
  value of four function parameters.
- **Serialising a URL.** It is a function parameter `href`.
- **The token endpoint.** It is a function from the token request to its reply.
- **The clock.** `Date.now()` is read once for each token cookie, so each reading is an integer parameter.

## Model

| member | source | states |
|---|---|---|
| Crypto.Limit | functions/crypto.ts:2-9 | The redraw bound `floor(256/range)*range` is at most 256, and fewer than `range` byte values lie at or above it. |
| Crypto.GetRandomInteger | functions/crypto.ts:1-12 | There is no value exactly when no remaining byte is accepted. Otherwise the value is the first accepted byte (`b < floor(256/range)*range`) mod `range`, so it is below `range`. Every byte before it was rejected and skipped, and exactly one accepted byte is consumed. |
| Crypto.DrawString | functions/crypto.ts:15-21 | The draw loop succeeds exactly when the stream holds `n` accepted bytes. Then it yields `n` characters, all among the first `range` characters of the alphabet, and consumes exactly `n` accepted bytes. |
| Crypto.GenerateRandomString | functions/crypto.ts:14-23 | The loop's text is the text of the draw. It exists exactly when 128 bytes are accepted for bound 61. Then it has exactly 128 characters, and none of them is '9'. |
| Crypto.NineNeverDrawn | functions/crypto.ts:17-20 | '9' is in the alphabet, yet no verifier drawn with the as-written bound `possible.length - 1` contains it. |
| Crypto.GenerateRandomStringFixed | functions/crypto.ts:14-23 | This is the generator with bound 62. It succeeds exactly when 128 bytes are accepted for bound 62, and then gives 128 characters of the alphabet. |
| Crypto.DrawRepeated | functions/crypto.ts:9-20 | A stream of copies of an accepted byte `k` draws `alphabet[k]` at every position. |
| Crypto.FixedDrawsEveryCharacter | functions/crypto.ts:17-20 | With bound 62, every character of the alphabet, '9' included, occurs in some generated verifier. |
| Crypto.GenerateCodeVerifier | functions/crypto.ts:25-27 | The "plain" verifier equals the challenge (section 4.2 of RFC 7636). |
| Crypto.ResiduesSound | functions/crypto.ts:9-11 | Every member of the residue class set is below `n*range` and congruent to `v`. |
| Crypto.ResiduesComplete | functions/crypto.ts:9-11 | Every number below `n*range` congruent to `v` is in the residue class set. |
| Crypto.ResiduesCount | functions/crypto.ts:9-11 | The residue class set has exactly `n` members. |
| Crypto.NoModuloBias | functions/crypto.ts:8-11 | For `1 <= range <= 256`, each residue below `range` is the image of exactly `floor(256/range)` accepted bytes. |
| Http.Names | functions/api/login.ts:20-26 | The names of a parameter list are its pairs' first components, in order. |
| Http.QueryGet | functions/api/callback.ts:7 | `searchParams.get(name)` is missing exactly when no pair has that name. |
| Http.QueryGetCons | functions/api/callback.ts:7 | `get` looks at the first pair, then at the rest. |
| Http.QueryGetFirst | functions/api/callback.ts:7 | `get` returns the value of the first pair with the name. |
| Http.Without | functions/api/login.ts:30 | Removing a header name leaves no value for it. Every other name keeps exactly its values, in order. A pair remains exactly when it was there under another name. The list never gets longer. |
| Http.WithoutTwice | functions/api/login.ts:30 | Removing a header name twice removes no more than removing it once. |
| Http.ValuesAppend | functions/kukkii/index.ts:54 | The values of a header name in a concatenation are the values in each part, in order. |
| Http.WithoutAppend | functions/api/login.ts:30 | Removing a name from a concatenation removes it from each part. |
| Http.SetEntry | functions/api/login.ts:30 | `headers.set` leaves exactly one value for the name and every other header untouched. A name that was absent goes at the end. |
| Http.Headers.constructor | functions/api/login.ts:7-9 | A new header list is empty. |
| Http.Headers.Append | functions/kukkii/index.ts:54 | `headers.append` puts the pair at the end and keeps every earlier entry. |
| Http.Headers.Set | functions/api/callback.ts:55 | `headers.set` changes the list as `SetEntry` says. |
| Http.NewResponse | functions/api/callback.ts:9 | A new response has the given status and body. It has no header without a body, and exactly the one text content-type header with one. |
| Http.Response.constructor | functions/api/login.ts:7-9 | A new response object holds a fresh header list and the value `NewResponse` gives. |
| Kukkii.Lookup | functions/kukkii/index.ts:16 | `obj[key]` is present exactly when the key is in the parsed object, and then is its value. |
| Kukkii.GetCookie | functions/kukkii/index.ts:9-17 | With a key: no value when the `Cookie` header is missing or empty, otherwise the parsed value for the key. |
| Kukkii.GetCookies | functions/kukkii/index.ts:18-23 | Without a key: the empty object when the header is missing or empty, otherwise everything parsed. |
| Kukkii.GetSignedCookie | functions/kukkii/index.ts:26-38 | No value when the `Cookie` header is missing or empty, otherwise the value the signed parse verifies for the key. |
| Kukkii.WithDefaultPath | functions/kukkii/index.ts:53-67 | `{ path: "/", ...opt }`: the caller's path wins, "/" is the default, and every other option is the caller's. |
| Kukkii.Expiring | functions/kukkii/index.ts:76 | `{ ...opt, maxAge: 0 }` sets `maxAge` to 0 over the caller's and keeps every other option. |
| Kukkii.DeletionOptions | functions/kukkii/index.ts:53-76 | A deletion is serialised with `maxAge` 0 and with the same path a plain set would get, and is otherwise the caller's options. |
| Kukkii.SetCookie | functions/kukkii/index.ts:47-55 | Exactly one `set-cookie` entry, the serialised cookie with the default path, is appended. Earlier headers are unchanged and in order. |
| Kukkii.SetSignedCookie | functions/kukkii/index.ts:57-69 | Exactly one `set-cookie` entry, the signed serialisation with the default path, is appended. Earlier headers are unchanged. |
| Kukkii.DeleteCookie | functions/kukkii/index.ts:71-77 | Exactly one `set-cookie` entry is appended: the name with the empty value and the expiring options. |
| Kukkii.AppendCookie | functions/kukkii/index.ts:54-68 | Appending a cookie adds exactly its value to the `set-cookie` values and changes no other header name's values. |
| Login.AuthorizationParams | functions/api/login.ts:20-26 | The query has exactly five parameters, in this order: `response_type=code`, `client_id`, `code_challenge_method=plain`, `code_challenge`, and `redirect_uri` = origin + `/api/callback`. |
| Login.AuthorizationUrl | functions/api/login.ts:27-29 | Location is `AUTH_URL` with origin, path and fragment kept and the query replaced by exactly those parameters. |
| Login.VerifierCookieOptions | functions/api/login.ts:13-18 | The verifier cookie gets path "/" and no expiry or max-age, so it is a session cookie. |
| Login.LoginResponse | functions/api/login.ts:5-33 | The response is a 302 with no body and exactly two headers. One `set-cookie` carries the signed verifier, which equals the challenge. One `location` is the authorization URL. |
| Login.DrawnChallenge | functions/api/login.ts:11 | The challenge is 128 characters without '9'. |
| Login.Login | functions/api/login.ts:5-33 | The handler's fresh response holds exactly `LoginResponse` for the request's origin and the drawn challenge. |
| Callback.TokenRequestFor | functions/api/callback.ts:66-81 | The token request is a form-encoded POST to `TOKEN_URL`. Its body has exactly six parameters, in this order: `client_id`, `client_secret`, `code`, `code_verifier`, `grant_type=authorization_code`, and `redirect_uri` = origin + `/api/callback`. |
| Callback.CheckTokenReply | functions/api/callback.ts:83-97 | A rejected fetch fails, a non-ok reply fails with "Failed to fetch token", and a body that is not JSON fails. Otherwise the tokens are returned exactly when `access_token`, `expires_in` and `refresh_token` are all truthy (0 and "" are not). Else it is "Invalid token response". |
| Callback.FetchToken | functions/api/callback.ts:60-98 | `fetchToken` posts to `TOKEN_URL` a body carrying this code and verifier. A rejected fetch fails. A non-ok reply fails with "Failed to fetch token", and a body that is not JSON fails. An ok JSON reply gives exactly its three tokens when all are truthy, and "Invalid token response" otherwise. |
| Callback.TokenCookieOptions | functions/api/callback.ts:37-52 | A token cookie is httpOnly and secure and expires `expires_in*1000` ms after its clock reading. It has no other option. |
| Callback.TokenCookieLifetime | functions/api/callback.ts:32-53 | A token cookie gets path "/" and no max-age. It expires after its clock reading exactly when `expires_in` is positive. |
| Callback.CallbackTokenRequest | functions/api/callback.ts:7-30 | A token request is made exactly when the code and the verified `code_verifier` cookie are both truthy. It is then the `fetchToken` request `TokenRequestFor` describes for that code, that verifier and the request's origin: a form POST to `TOKEN_URL` with the client credentials and `grant_type=authorization_code`. |
| Callback.Redirect | functions/api/callback.ts:20-57 | On success the response is a 302 with no body and four headers. `set-cookie` is, in order, the verifier deletion, `access_token` and `refresh_token`. `location` is origin + "/". |
| Callback.SetOnAbsent | functions/api/callback.ts:55 | `headers.set` of a name the list does not hold gives that name exactly the new value, adds one entry and keeps every other name's values. |
| Callback.CallbackOutcome | functions/api/callback.ts:4-58 | A missing code gives 400 "No code provided" before any cookie is read. A missing verifier gives 400 "No code_verifier provided". Once a token request is made, a failed exchange throws and no response, deletion or token cookie comes out, and a successful one gives `Redirect`. |
| Callback.RedirectsOnlyAfterExchange | functions/api/callback.ts:20-55 | The handler redirects exactly when a token request is made and the exchange succeeds. |
| Callback.HandleCallback | functions/api/callback.ts:4-58 | The handler's observable result, the fresh response or the thrown failure, is exactly `CallbackOutcome`. |
| Callback.VerifierReachesTokenEndpoint | functions/api/callback.ts:11-30 | When the cookie verifies to the challenge a login drew, the token request's `code_verifier` is that challenge (section 4.5 of RFC 7636). Its `client_id` and `redirect_uri` are the authorization request's. |
| Sequences.Repeat | src/Wrapped.tsx:148-153 | `n` copies of `x`. |
| Sequences.Filter | src/Wrapped.tsx:235-237 | `filter` keeps exactly the elements satisfying the predicate. A kept element occurs as often as in the input, and the result is no longer. |
| Sequences.FilterAppend | src/Wrapped.tsx:235-237 | `filter` keeps order: filtering a concatenation filters each part and keeps the parts in turn. |
| Sequences.FilterSnoc | src/Wrapped.tsx:235-237 | An element added at the end is kept at the end exactly when it passes. |
| Sequences.FilterOne | src/Wrapped.tsx:235-237 | A one-element list keeps its element exactly when it passes. |
| Sequences.FilterSorted | src/Wrapped.tsx:282-284 | Filtering a sorted list leaves it sorted. |
| Sequences.Insert | src/Wrapped.tsx:284 | Insertion adds exactly one element to the multiset. |
| Sequences.InsertSorted | src/Wrapped.tsx:284 | Insertion keeps a list sorted and keeps a bound on the keys. |
| Sequences.InsertStable | src/Wrapped.tsx:284 | Insertion puts a new element after every element with its key. |
| Sequences.SortBy | src/Wrapped.tsx:284 | Sorting by a key gives a sorted permutation. |
| Sequences.SortByStable | src/Wrapped.tsx:284 | The sort is stable: elements with equal keys keep their input order. |
| Sequences.ToSorted | src/Wrapped.tsx:243-245 | For a comparator that is a difference of integer keys, `toSorted` is a permutation with no later element comparing before an earlier one. Equal-key elements keep their order. |
| Sequences.SliceEnd | src/Wrapped.tsx:952 | The end index of `slice(0, end)`: clamped to the length, counted from the back when negative, never below 0. |
| Sequences.SliceTo | src/Wrapped.tsx:952 | `slice(0, end)` is the prefix of `min(end, length)` elements for a non-negative end. |
| Sequences.DistinctCount | src/Wrapped.tsx:242-245 | A list without repeats counts each element at most once. |
| Sequences.PermutationDistinct | src/Wrapped.tsx:242-245 | A permutation of a list without repeats has none. |
| Grouping.Add | src/Wrapped.tsx:170-179 | One reducer step puts `x` at the end of the list of `k` and leaves every other list unchanged. A new name goes at the end of the names, an old one stays where it was. The record stays well formed. |
| Grouping.AddUnder | src/Wrapped.tsx:148-153 | Filing an entry under several names keeps the record well formed. |
| Grouping.AddUnderLists | src/Wrapped.tsx:144-168 | Filing an entry under a list of names appends it to each name's list once per occurrence of the name, and adds exactly those names. |
| Grouping.NamesOf | src/Wrapped.tsx:148-161 | The names of studios or genres, in order. |
| Grouping.GroupBy | src/Wrapped.tsx:239-241 | The fold `reduce(reducer, {})` gives a well-formed record. |
| Grouping.GroupByLists | src/Wrapped.tsx:144-179 | After the fold, each name's list is its members in input order. A name has a list exactly when some entry is filed under it. |
| Grouping.MembersNameKey | src/Wrapped.tsx:144-168 | An entry is in the group of `k` exactly when it is an input that names `k`. |
| Grouping.MembersSorted | src/Wrapped.tsx:282-285 | Grouping keeps input order, so a sorted input gives sorted groups. |
| Grouping.SizeSumFrame | src/Wrapped.tsx:170-179 | Changing a list outside the summed names leaves the size sum unchanged. |
| Grouping.SizeSumUpdate | src/Wrapped.tsx:170-179 | Replacing one listed name's list changes the size sum by the difference in length. |
| Grouping.AddSize | src/Wrapped.tsx:170-179 | One reducer step grows the total group size by one. |
| Grouping.AddUnderSize | src/Wrapped.tsx:144-168 | Filing under `n` names grows the total group size by `n`. |
| Grouping.GroupSizesSum | src/Wrapped.tsx:144-168 | After the fold, the group sizes sum to the number of memberships over all entries. |
| Grouping.GroupRecord.constructor | src/Wrapped.tsx:240 | The accumulator starts as `{}`. |
| Grouping.GroupRecord.Push | src/Wrapped.tsx:173-177 | `if (!acc[k]) acc[k] = []; acc[k].push(x)` updates the record as `Add` says. |
| Grouping.GroupRecord.PushUnderEach | src/Wrapped.tsx:148-153 | The `forEach` over studios or genres updates the record as `AddUnder` says. |
| Grouping.GroupRecord.ReduceToStudiosRecord | src/Wrapped.tsx:144-155 | `reduceToStudiosRecord` files the entry under each of its studio names. |
| Grouping.GroupRecord.ReduceToGenresRecord | src/Wrapped.tsx:157-168 | `reduceToGenresRecord` files the entry under each of its genre names. |
| Grouping.GroupRecord.ReduceToMediaTypeRecord | src/Wrapped.tsx:170-179 | `reduceToMediaTypeRecord` files the entry under its media type. |
| Grouping.StudiosRecord | src/Wrapped.tsx:239-241 | The in-place fold with the studios reducer ends in the record `GroupBy` gives. |
| Grouping.GenresRecord | src/Wrapped.tsx:255-257 | The in-place fold with the genres reducer ends in the record `GroupBy` gives. |
| Grouping.MediaTypeRecord | src/Wrapped.tsx:282-285 | The in-place fold with the media-type reducer ends in the record `GroupBy` gives. |
| Grouping.Entries | src/Wrapped.tsx:242 | `Object.entries` lists each name, in creation order, with its list. |
| Grouping.EntriesOfGroupBy | src/Wrapped.tsx:239-242 | An entry of the grouped record is a name paired with exactly its members, nonempty. |
| Grouping.GroupedEntries | src/Wrapped.tsx:239-242 | The grouped entries are exactly the names with members, each paired with its members, and no name occurs twice. |
| Wrapped.CompletedAndDroppedDisjoint | src/Wrapped.tsx:20-26 | The completed and dropped filters keep exactly their status, so no entry passes both. |
| Wrapped.FilterCompletedByUser | src/Wrapped.tsx:20-22 | Keeps an entry exactly when its list status is "completed". Such an entry is never kept by the dropped filter. |
| Wrapped.FilterDroppedByUser | src/Wrapped.tsx:24-26 | Keeps an entry exactly when its list status is "dropped". |
| Wrapped.FilterUpdatedInYear | src/Wrapped.tsx:28-34 | The returned filter keeps an entry exactly when its `updated_at` falls in `year`. |
| Wrapped.FilterWithUserScore | src/Wrapped.tsx:36-38 | Keeps an entry exactly when the user scored it (score not 0). |
| Wrapped.FilterWithMalScore | src/Wrapped.tsx:40-42 | Keeps an entry exactly when the catalogue has a mean score for it. |
| Wrapped.FilterNoMusic | src/Wrapped.tsx:44-46 | Keeps an entry exactly when its media type is not "music". |
| Wrapped.FilterAnimeEntriesWithMoreThanXAnime | src/Wrapped.tsx:216-218 | The returned filter keeps a group exactly when it has more than `x` entries. For `x >= 0` it keeps no empty group. |
| Wrapped.RankOrZero | src/Wrapped.tsx:220-226 | `rank ?? 0`: the rank when there is one, 0 when it is missing. |
| Wrapped.FilterRankHigherThan | src/Wrapped.tsx:220-222 | The returned filter keeps a ranked entry exactly when its rank is below the bound. It keeps an unranked entry exactly when the bound is positive. |
| Wrapped.FilterRankLowerThan | src/Wrapped.tsx:224-226 | The returned filter keeps a ranked entry exactly when its rank is above the bound. It keeps an unranked entry exactly when the bound is negative. |
| Wrapped.ContentFilters | src/Wrapped.tsx:36-218 | `filterNoMusic` drops exactly music, `filterWithUserScore` drops exactly score 0, and `filterAnimeEntriesWithMoreThanXAnime(x)` keeps exactly the groups larger than `x`. |
| Wrapped.RankFilters | src/Wrapped.tsx:220-226 | A missing rank reads as 0. No entry passes both rank filters of one bound, and one of them passes exactly when the rank is not the bound. For a positive bound, an unranked entry passes the "higher" filter and fails the "lower" one. |
| Wrapped.SortByUserScoreHighFirst | src/Wrapped.tsx:78-80 | Negative exactly when `a` scored higher, zero exactly when equal. |
| Wrapped.SortByUserScoreLowFirst | src/Wrapped.tsx:82-84 | Negative exactly when `a` scored lower. It is the high-first comparator negated. |
| Wrapped.SortByMostListUsers | src/Wrapped.tsx:122-124 | Negative exactly when more users list `a`. |
| Wrapped.SortByLeastListUsers | src/Wrapped.tsx:126-128 | Negative exactly when fewer users list `a`. It is the most-first comparator negated. |
| Wrapped.SortAnimeEntriesMostFirst | src/Wrapped.tsx:209-214 | Negative exactly when group `a` is larger. |
| Wrapped.YearToEvaluate | src/Wrapped.tsx:229-232 | The current year exactly in December (month 11), the year before otherwise. |
| Wrapped.MalWrappedSlide | src/Wrapped.tsx:943-952 | The slide shows the first `min(length, list.length)` entries, with length 3 by default. |
| Wrapped.SortedSlide | src/Wrapped.tsx:943-952 | A slide of a key-sorted list shows only entries of that list, `min(length, list.length)` of them for a non-negative length, in key order. |
| Wrapped.SlideOfSorted | src/Wrapped.tsx:943-952 | A slide of a key-sorted list shows only list entries, and no entry left off sorts before one shown. |
| Wrapped.EntriesMostFirst | src/Wrapped.tsx:239-245 | The sorted grouped entries are largest first. They are exactly the names with members, each with its members and nonempty, and no name occurs twice. |
| Wrapped.SortedEntriesDistinct | src/Wrapped.tsx:242-245 | Reordering entries with distinct names keeps them and their distinct names. |
| WrappedPipelines.InitialFiltered | src/Wrapped.tsx:235-237 | `initialFiltered` is exactly the entries updated in the evaluated year that are not music. |
| WrappedPipelines.StudioEntriesMostCompletedAnime | src/Wrapped.tsx:239-245 | The groups are exactly the studios that some completed, non-music entry of the year carries, each paired with all such entries under that studio, in input order. They are largest first, and no studio occurs twice. |
| WrappedPipelines.StudioEntriesMostDroppedAnime | src/Wrapped.tsx:247-253 | The groups are exactly the studios that some dropped, non-music entry of the year carries, each paired with all such entries under that studio, in input order. They are largest first, and no studio occurs twice. |
| WrappedPipelines.GenreEntriesMostCompletedAnime | src/Wrapped.tsx:255-261 | The groups are exactly the genres that some completed, non-music entry of the year carries, each paired with all such entries under that genre, in input order. They are largest first, and no genre occurs twice. |
| WrappedPipelines.GenreEntriesMostDroppedAnime | src/Wrapped.tsx:263-269 | The groups are exactly the genres that some dropped, non-music entry of the year carries, each paired with all such entries under that genre, in input order. They are largest first, and no genre occurs twice. |
| WrappedPipelines.StatusGroupsHoldTheirEntries | src/Wrapped.tsx:239-269 | Every studio or genre group of the completed (dropped) slides holds only completed (dropped) entries of the year that are not music and carry the group's name. |
| WrappedPipelines.StatusGroupsFiled | src/Wrapped.tsx:239-269 | Grouping the entries a status filter keeps files only entries of that status. |
| WrappedPipelines.KeptInYear | src/Wrapped.tsx:235-237 | An entry kept after `initialFiltered` is of the year, not music, and passes the filter. |
| WrappedPipelines.Scored | src/Wrapped.tsx:271-273 | The scored entries are exactly the entries of the year that are not music and have a user score. |
| WrappedPipelines.GenreScoredEntriesWithMoreThanOne | src/Wrapped.tsx:271-276 | The genre groups of scored entries with more than one entry are exactly the genres with at least two scored members, each with its members. |
| WrappedPipelines.CompletedByScore | src/Wrapped.tsx:282-284 | Exactly the completed entries of the year that are not music, from the highest user score down. |
| WrappedPipelines.MediaTypeEntriesMostCompletedAnime | src/Wrapped.tsx:282-290 | The groups are exactly the media types of the score-sorted completed entries of the year, each paired with all such entries of that type in that order. They are largest first, and no media type occurs twice. |
| WrappedPipelines.MediaTypeGroupsByScore | src/Wrapped.tsx:282-290 | Each media-type group holds completed entries of exactly that media type, from the highest user score down. |
| WrappedPipelines.MediaTypeGroup | src/Wrapped.tsx:282-290 | The same, for one group. |
| WrappedPipelines.SecondsWatched | src/Wrapped.tsx:292-298 | The sum of episodes times episode length is a number exactly when every entry has both. It is non-negative when they are. Its value is fixed by `SecondsWatchedOne` and `SecondsWatchedAppend`. |
| WrappedPipelines.Plus | src/Wrapped.tsx:295-296 | `acc + term` is a number exactly when both sides are. |
| WrappedPipelines.EpisodeSeconds | src/Wrapped.tsx:296 | `num_episodes! * average_episode_duration!` is a number exactly when both fields are present. |
| WrappedPipelines.SecondsWatchedOne | src/Wrapped.tsx:292-298 | The total of one entry is its episodes times its episode length, or `NaN` when either is missing. |
| WrappedPipelines.SecondsWatchedAppend | src/Wrapped.tsx:292-298 | The total of two lists put together is the `+` of their totals. |
| WrappedPipelines.SecondsWatchedInYear | src/Wrapped.tsx:292-298 | The watched time of the year is a number exactly when every completed entry of the year that is not music has both an episode count and an episode length. Its value is fixed by `SecondsWatchedInYearOne` and `SecondsWatchedInYearAppend`. |
| WrappedPipelines.SecondsWatchedInYearAppend | src/Wrapped.tsx:292-298 | The watched time over two lists put together is the `+` of their watched times. |
| WrappedPipelines.SecondsWatchedInYearOne | src/Wrapped.tsx:292-298 | One entry adds its episodes times its episode length when it was completed in the year and is not music, and 0 otherwise. |
| WrappedPipelines.CompletedScored | src/Wrapped.tsx:329-333 | The list both "liked" slides sort is exactly the completed, scored entries of the year. |
| WrappedPipelines.CompletedWithMean | src/Wrapped.tsx:356-360 | The list the popularity and rank slides start from is exactly the completed entries of the year with a mean score. |
| WrappedPipelines.HiddenGemCandidates | src/Wrapped.tsx:845-848 | The list "hidden gem" sorts is exactly the completed entries of the year with a mean score and a rank (or 0) above 500. |
| WrappedPipelines.UnpopularOpinionCandidates | src/Wrapped.tsx:856-859 | The list "unpopular opinion" sorts is exactly the completed entries of the year with a mean score and a rank (or 0) below 500. |
| WrappedPipelines.LikedMost | src/Wrapped.tsx:329-335 | The "liked most" slide shows `min(5, n)` entries, where `n` counts the completed, scored entries of the year. Each shown entry is one of them, and they come from the highest score down. |
| WrappedPipelines.LikedLeast | src/Wrapped.tsx:341-347 | The "liked least" slide shows `min(5, n)` of the completed, scored entries of the year, from the lowest score up. |
| WrappedPipelines.MostPopular | src/Wrapped.tsx:356-361 | The "most popular" slide shows `min(3, n)` of the completed entries of the year with a mean score, from the most list users down. |
| WrappedPipelines.LeastPopular | src/Wrapped.tsx:368-373 | The "least popular" slide shows `min(3, n)` of the completed entries of the year with a mean score, from the fewest list users up. |
| WrappedPipelines.HiddenGem | src/Wrapped.tsx:843-849 | The "hidden gem" slide shows `min(3, n)` of the completed entries of the year with a mean score and a rank (or 0) above 500, from the highest user score down. |
| WrappedPipelines.UnpopularOpinion | src/Wrapped.tsx:854-860 | The "unpopular opinion" slide shows `min(3, n)` of the completed entries of the year with a mean score and a rank (or 0) below 500, from the lowest user score up. |
| WrappedPipelines.LikedMostIsTop | src/Wrapped.tsx:329-335 | The "liked most" slide shows at most five completed, scored entries of the year. Each scored at least as high as every such entry left off. |
| WrappedPipelines.LikedLeastIsBottom | src/Wrapped.tsx:341-347 | Every completed, scored entry of the year left off the "liked least" slide scored no lower than each one shown. |
| WrappedPipelines.MostPopularIsTop | src/Wrapped.tsx:356-361 | Every completed entry of the year with a mean score left off the "most popular" slide has no more list users than each one shown. |
| WrappedPipelines.LeastPopularIsBottom | src/Wrapped.tsx:368-373 | Every completed entry of the year with a mean score left off the "least popular" slide has no fewer list users than each one shown. |
| WrappedPipelines.GemAndOpinionApart | src/Wrapped.tsx:843-861 | "Hidden gem" shows completed entries with a mean score ranked worse than 500. "Unpopular opinion" shows those ranked better, unranked included. No entry appears on both, and every hidden gem is ranked. |

## Left out

- `functions/kukkii/utils.ts` is not part of this model. Its cookie parsing, serialisation and HMAC signing are the uninterpreted `Codec` parameters, and no signing round trip is claimed. A `code_verifier` cookie whose signature does not verify is a key missing from `parseSigned`'s result.
- `crypto.getRandomValues` is a finite byte stream. The source redraws forever until it accepts a byte, but the model stops with `None` when the stream runs out. `Login.Login` requires a stream with 128 accepted bytes.
- Crypto.GetRandomInteger: requires `range >= 1`. The source is only called with 61, and `range` 0 (a division by zero) or a non-integer range is not modelled.
- Login.Login: uses the as-written generator, bound 61, as the deployed code does. The fixed generator is modelled only in `Crypto`.
- URL parsing and serialisation are not modelled. A request URL is the parsed record, `AUTH_URL` is held already parsed, and `url.toString()` is the `href` parameter, so a malformed URL that makes `new URL` throw is not modelled.
- `fetch`, `res.json()` and the network are the `endpoint` parameter. A JSON field of the wrong type, or a non-integer `expires_in`, is not modelled: `expires_in` is an integer or missing.
- `Date.now()` is one integer parameter for each read. `new Date(...)` and its serialisation in `expires` are the integer number of milliseconds.
- `async`/`await` scheduling is left out. The awaited calls are ordinary calls in source order.
- Headers are modelled by their lower-case names. Case folding of header names is not modelled.
- `functions/api/animelist.ts`, `functions/api/profile.ts` and `functions/api/check-auth.ts` are thin proxies or guards and are not part of this model. Neither is `src/App.tsx`.
- `filterUpdatedInYear` reads the year of the parsed `updated_at` date. Date parsing is not modelled, so the year is the `updatedYear` field of an entry.
- The date comparators `sortByUserUpdatedDate*` and `sortByReleaseDate*` depend on JavaScript date parsing and are left out.
- The floating-point helpers are left out:
  - `sortByOverrated` and `sortByUnderrated`;
  - `filterOverrated` and `filterUnderrated`;
  - `sortByMalScore*`;
  - the average-score comparators `sortAnimeEntriesByUserScore*`;
  - `toFixed`;
  - the seconds-to-days and seconds-to-hours divisions.
- WrappedPipelines.GenreScoredEntriesWithMoreThanOne: the following average-score sort is not modelled. The function is the filtered entries in creation order.
- `filterWithDuration`, `filterWithNumEpisodes`, `sortByLongestAnime` and `sortByShortestAnime` only feed JSX slides and are not modelled. The slides modelled are "liked most/least", "most/least popular", "hidden gem" and "unpopular opinion".
- WrappedPipelines.SecondsWatched: `NaN` from a missing episode count or duration is `None`. Floating-point rounding of large sums is not modelled.
- The JSX rendering, Swiper, NextUI, `useState` and local storage are not modelled. A slide is the list of entries it shows.
- `Object.entries` lists integer-like keys first, in numeric order. The model lists names in creation order, the order for other string keys.
- A name such as "constructor", already present on `{}` through its prototype, would make `!acc[k]` false. `acc[k].push` then calls a method the inherited function does not have, and the source throws a TypeError, so the view fails on such a studio, genre or media type. The model treats such names like any other name and does not model that failure.
- The reducers' in-place `push` is a reassignment of the record's map field. The aliasing of list objects between records is not modelled.
- `toSorted` is modelled for comparators that are a difference of integer keys, which all modelled comparators are. Its result is the stable sort, as ECMAScript requires.

## Findings

| source | as written | input that shows it | evidently intended | confidence | as-written member | corrected member |
|---|---|---|---|---|---|---|
| functions/crypto.ts:20 | `getRandomInteger(possible.length - 1)` draws an index in [0, 61), so the 62nd character of `possible`, '9', never appears in a code verifier | any byte stream; e.g. 128 bytes of value 61 give 128 copies of 'A' (61 mod 61 = 0), while with the bound 62 they give 128 copies of '9' | draw from all 62 characters: `getRandomInteger(possible.length)` | not executed | Crypto.NineNeverDrawn | Crypto.FixedDrawsEveryCharacter |
