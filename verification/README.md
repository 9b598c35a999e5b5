# Jasny Social: Twitter and LinkedIn connections in Dafny

This project models the core of the two provider connections of the Jasny
Social PHP library (`Social\Twitter\Connection` and
`Social\LinkedIn\Connection`) and proves properties of the model.

- **Twitter resource resolution.** `normalizeResource` turns an API path
  into a lookup key: ids and `:name` placeholders become `*`, and a trailing
  extension or query is dropped. `getBaseUrl` and `detectType` walk that key
  towards the root with `dirname`. `getDefaultParams` and `detectMultipart`
  look the key up exactly. `getFullUrl` prefixes the API host.
- **Twitter cursor pagination.** `singleRequest` follows `next_cursor_str`
  and appends every page's content array to the first response.
  `multiRequest` does the same for a batch, in rounds.
- **Small decisions.** Twitter's `httpError` and the HTTP method of
  `stream`. LinkedIn's `initRequest`, which passes the OAuth2 access token in
  the query string as `oauth2_access_token`, its `httpError`, and its token
  endpoint.

Files:

- `values.dfy` (module `Values`): PHP values as the transport decodes them.
  It covers truthiness, `isset`, property reads, keyed assignment (`Put`:
  overwrite in place or append) and string conversion.
- `requests.dfy` (module `Requests`): the request object. It is a class,
  because the connections change the caller's request in place. The
  transport (`parent::singleRequest`) is a parameter: a function from the
  request to the decoded response.
- `paths.dfy` (module `Paths`): the two regular expressions of
  `normalizeResource`, with a segment-wise reference reading, and PHP's
  `dirname` and `ltrim`.
- `twitter_resources.dfy` (module `TwitterResources`): the configuration
  tables, the `dirname` walks as loops proved against recursive lookups,
  `getFullUrl` joining, `getDefaultParams` and `detectMultipart`.
- `twitter_paging.dfy` (module `TwitterPaging`): `singleRequest` and
  `multiRequest` as loops over request objects. Each is proved against a
  function (`Paginate`, `Multi`), and lemmas relate those functions to the
  chain of pages fetched.
- `twitter_rounds.dfy` (module `TwitterRounds`): what one round of
  `multiRequest` does to each entry.
- `twitter_connection.dfy` (module `TwitterConnection`): `httpError` and
  `stream`.
- `linkedin.dfy` (module `LinkedIn`): `initRequest`, `httpError` and the
  token endpoint.

Loops whose end only the provider decides are bounded by a `fuel`
parameter. `OutOfFuel` means the chain of cursors was still going when the
fuel ran out.

PHP errors the code can raise on odd responses are modelled as error
outcomes rather than excluded:

- `MergeOfNonArray`: `array_merge` given something that is not an array.
- `PropertiesOfNonObject`: `get_object_vars(null)`.

Two choices in `multiRequest`:

- The code re-sends the whole batch every round (line 308), although it has
  collected the entries that still have a cursor to follow. `Refetch`
  selects between that (`WholeBatch`) and re-sending only the entries that
  still have a cursor (`PendingOnly`).
- The code recomputes the merge key in every round.
  `MergeKeepsContentKey` shows that a merge never changes it, so computing
  it once per entry gives the same key.

## Model

| member | source | states |
|---|---|---|
| Values.Put | src/Social/Twitter/Connection.php:302 | `$a[$k] = $v`: afterwards `$k` reads `$v` and every other key reads what it read before |
| Values.PutNames | src/Social/Twitter/Connection.php:302 | an existing key keeps its position; a new key is appended at the end |
| Values.PutPut | src/Social/LinkedIn/Connection.php:75 | assigning a key twice keeps only the second value |
| Values.NatToStringValue | src/Social/Twitter/Connection.php:386 | the decimal string of a number reads back as that number |
| Requests.Req.WithParam | src/Social/Twitter/Connection.php:272 | setting a request parameter changes `params` by `Put` and nothing else |
| Paths.DigitMatchIsId | src/Social/Twitter/Connection.php:209 | a run of digits that the id pattern accepts after a `/` is the whole segment |
| Paths.ColonMatchIsId | src/Social/Twitter/Connection.php:209 | a `:word` that the id pattern accepts after a `/` is the whole segment |
| Paths.IdLenOfSegment | src/Social/Twitter/Connection.php:209 | where pattern 1 matches after a `/` depends only on the next segment: an id is matched whole, and an id before the final newline is matched without it |
| Paths.JoinSegments | src/Social/Twitter/Connection.php:209 | splitting a path on `/` and joining it again gives the path back |
| Paths.ReplaceIdsBySegments | src/Social/Twitter/Connection.php:209 | the left-to-right regex replacement equals the segment-wise reading: exactly the segments after a `/` that are all digits or `:word` become `*` |
| Paths.ReplaceIdsChars | src/Social/Twitter/Connection.php:209 | pattern 1 only writes `*` besides characters of its input |
| Paths.ReplaceIdsIdempotent | src/Social/Twitter/Connection.php:209 | replacing ids twice is replacing them once |
| Paths.LeftmostMatch | src/Social/Twitter/Connection.php:209 | the suffix pattern's match found is the leftmost one; none means no position matches |
| Paths.SuffixMatch | src/Social/Twitter/Connection.php:209 | a match of the extension-or-query pattern ends at the end of the string or before its final newline |
| Paths.StripSuffixNoop | src/Social/Twitter/Connection.php:209 | a path without `.` and `?` is kept |
| Paths.StripSuffixDropsQuery | src/Social/Twitter/Connection.php:209 | without a newline, no `?` survives pattern 2 |
| Paths.StripSuffixExtension | src/Social/Twitter/Connection.php:209 | without newline or query, a final `.ext` is removed |
| Paths.StripSuffixNoExtension | src/Social/Twitter/Connection.php:209 | without newline, query or final `.ext`, the path is kept |
| Paths.NormalizeNoLeadingSlash | src/Social/Twitter/Connection.php:209 | a path not starting with `/` gives a key not starting with `/` |
| Paths.PlainPathKept | src/Social/Twitter/Connection.php:209 | a path of plain names, none an id, is its own key |
| Paths.NormalizeIdempotent | src/Social/Twitter/Connection.php:209 | normalizing twice is normalizing once, for paths without `.` and `?` |
| Paths.NormalizeIdInPath | src/Social/Twitter/Connection.php:208-209 | `name/id/op.ext` gives `name/*/op` |
| Paths.NormalizeExample | src/Social/Twitter/Connection.php:208-209 | `statuses/12345/show.json` gives `statuses/*/show` |
| Paths.NormalizeIdWithExtension | src/Social/Twitter/Connection.php:209 | in `name/id.ext` the extension hides the id: the key is `name/id` |
| Paths.NormalizeTrailingId | src/Social/Twitter/Connection.php:209 | `name/id` gives `name/*` |
| Paths.NormalizeNotIdempotent | src/Social/Twitter/Connection.php:209 | normalizing is not idempotent in general: `name/id.ext` gives `name/id`, which gives `name/*` |
| Paths.DirnameRelative | src/Social/Twitter/Connection.php:193 | `dirname` of a path not starting with `/` is `.` or a proper ancestor not starting with `/` |
| Paths.DirnameAbsolute | src/Social/Twitter/Connection.php:193 | `dirname` of a path starting with `/` starts with `/` again |
| Paths.AbsoluteNeverDot | src/Social/Twitter/Connection.php:191-194 | however often `dirname` is applied to a path starting with `/`, it never reaches `.` |
| Paths.DirnameAbsoluteAncestor | src/Social/Twitter/Connection.php:236 | `dirname` of a path starting with `/` is `/` or a proper ancestor, so `/` is the only such path that is its own `dirname` |
| Paths.DirnameChild | src/Social/LinkedIn/Connection.php:101 | `dirname("a/b")` is `a` for a plain name `b` |
| Paths.TrimLeadingSlashes | src/Social/Twitter/Connection.php:177 | `ltrim($s, '/')` is a suffix of `s` that does not start with `/`, and every character it drops is a `/` |
| TwitterResources.BaseWalk | src/Social/Twitter/Connection.php:191-194 | the keys `getBaseUrl` tries: the key, then each `dirname`, stopping before `.` |
| TwitterResources.TypeWalk | src/Social/Twitter/Connection.php:234-237 | the keys `detectType` tries: the key, then each `dirname` while truthy and not `.` |
| TwitterResources.BaseWalkAncestors | src/Social/Twitter/Connection.php:191-194 | each key tried is a proper ancestor of the one before: most specific first |
| TwitterResources.TypeWalkPrefixOfBaseWalk | src/Social/Twitter/Connection.php:234-237 | both walks try the same keys, except that `detectType` stops before an ancestor `0` |
| TwitterResources.FindUpListed | src/Social/Twitter/Connection.php:192 | the lookup only finds entries of the table |
| TwitterResources.FindUpFirstIn | src/Social/Twitter/Connection.php:191-194 | the lookup finds nothing exactly when no key of the walk is listed, otherwise the entry of the first listed key |
| TwitterResources.ReplaceAllPrefix | src/Social/Twitter/Connection.php:196 | `str_replace` copies text that cannot start an occurrence |
| TwitterResources.FallbackUrl | src/Social/Twitter/Connection.php:196 | the fallback host is the REST URL with `{v}` replaced by the API version |
| TwitterResources.ResolveBaseUrlMostSpecific | src/Social/Twitter/Connection.php:189-196 | the host is the entry of the first listed key of the walk, or the fallback when the key is falsy or nothing is listed |
| TwitterResources.BaseUrl | src/Social/Twitter/Connection.php:187-197 | the do-while loop returns the resolved host of the normalized key |
| TwitterResources.BaseUrlOfSubResource | src/Social/Twitter/Connection.php:192 | `statuses/update_with_media/x` gets the upload host, `{v}` left in place |
| TwitterResources.BaseUrlOfListed | src/Social/Twitter/Connection.php:83 | `statuses/filter` gets the stream host |
| TwitterResources.BaseUrlOfOAuth | src/Social/Twitter/Connection.php:81 | `oauth/request_token` gets the authentication host |
| TwitterResources.BaseUrlOfUnlisted | src/Social/Twitter/Connection.php:196 | `statuses/show` gets the versioned REST URL |
| TwitterResources.ResolveBaseUrlAsWrittenFails | src/Social/Twitter/Connection.php:196 | as written, exactly the keys that need the fallback fail (`statuses/show` among them); on the others both readings agree |
| TwitterResources.TableKeysRelative | src/Social/Twitter/Connection.php:79-88 | no key of the host table starts with `/` |
| TwitterResources.BaseLoopAsWrittenEnds | src/Social/Twitter/Connection.php:187-196 | on a key without a leading `/`, `getBaseUrl` as written ends within as many steps as the key is long: with the first listed ancestor's host, or with the fatal fallback when the key is falsy or no ancestor is listed |
| TwitterResources.LeadingSlashNeverResolves | src/Social/Twitter/Connection.php:189-194 | on a key with a leading `/` the walk as written is still running after any number of steps: it neither returns a host nor reaches the fallback |
| TwitterResources.TableHostsHaveScheme | src/Social/Twitter/Connection.php:79-88 | every host in the table is an `https://` URL |
| TwitterResources.HostsHaveScheme | src/Social/Twitter/Connection.php:189-196 | every host resolution can give is an `https://` URL |
| TwitterResources.FullUrl | src/Social/Twitter/Connection.php:175-179 | a string with `://` is kept; the result always has `://` |
| TwitterResources.FullUrlIdempotent | src/Social/Twitter/Connection.php:177 | joining twice is joining once |
| TwitterResources.FullUrlOfPath | src/Social/Twitter/Connection.php:177 | a relative path gets its key's host prefixed; leading slashes make no difference |
| TwitterResources.DefaultParams | src/Social/Twitter/Connection.php:218-222 | the listed parameters for exactly the normalized key, `[]` for an unlisted key |
| TwitterResources.Multipart | src/Social/Twitter/Connection.php:248-252 | true exactly when the normalized key is listed |
| TwitterResources.DefaultParamsOfUserTimeline | src/Social/Twitter/Connection.php:110 | `statuses/user_timeline` gets `max_id => null, trim_user => true` |
| TwitterResources.DefaultParamsOfSubPath | src/Social/Twitter/Connection.php:221 | a listed key's sub-path gets no defaults (no walk) |
| TwitterResources.NoDefaultParams | src/Social/Twitter/Connection.php:104-115 | a key longer than every listed key has no defaults |
| TwitterResources.MultipartOfUpdateWithMedia | src/Social/Twitter/Connection.php:97 | `statuses/update_with_media` needs a multipart POST |
| TwitterResources.MultipartOfSubPath | src/Social/Twitter/Connection.php:251 | a listed key's sub-path is not multipart (no walk) |
| TwitterResources.NotMultipart | src/Social/Twitter/Connection.php:94-98 | a key of a length no listed key has is not multipart |
| TwitterResources.TypeUpFirstIn | src/Social/Twitter/Connection.php:232-239 | the type lookup finds nothing exactly when no key of the walk is listed, otherwise the first listed key's type |
| TwitterResources.DetectType | src/Social/Twitter/Connection.php:230-240 | the do-while loop ends as `TypeLoop` says: on a path without a leading `/`, with the type of the most specific listed key or null; on a path with one, with the first listed absolute ancestor's type, or never once it reaches an unlisted `/` |
| TwitterResources.TypeUpAbsoluteEnds | src/Social/Twitter/Connection.php:234-237 | from a key with a leading `/` the loop never returns null; it runs forever only when neither the key nor `/` is listed, and always ends when `/` is listed |
| TwitterPaging.ContentKey | src/Social/Twitter/Connection.php:269 | the merge key is the first property when that is not a cursor key, otherwise the empty name; never a cursor key |
| TwitterPaging.MergePage | src/Social/Twitter/Connection.php:274-276 | a merge fails exactly when the page has truthy content and not both contents are arrays; it copies `next_cursor_str` |
| TwitterPaging.MergePageCursor | src/Social/Twitter/Connection.php:275 | a merge copies `next_cursor` from the page |
| TwitterPaging.MergePageContent | src/Social/Twitter/Connection.php:274 | a merge appends the page's non-empty content to array content and leaves other content alone |
| TwitterPaging.MergePagePrevious | src/Social/Twitter/Connection.php:271-277 | a merge keeps `previous_cursor` and `previous_cursor_str` |
| TwitterPaging.MergePageKeeps | src/Social/Twitter/Connection.php:271-277 | a merge keeps every property other than the content and the next cursors |
| TwitterPaging.Paginate | src/Social/Twitter/Connection.php:261-282 | scalar responses come back unchanged; no pagination when the request pins a `cursor` or `next_cursor_str` is empty |
| TwitterPaging.SingleRequest | src/Social/Twitter/Connection.php:261-282 | the loop over the request object returns `Paginate`'s result and leaves the request in `Paginate`'s final state |
| TwitterPaging.PaginateUrl | src/Social/Twitter/Connection.php:258-272 | a URL string (the other `$request` form) comes back unchanged unless its first page is an object with a truthy `next_cursor_str`; exactly then the cursor write into the string is a PHP 8 error |
| TwitterPaging.PaginateUrlAgrees | src/Social/Twitter/Connection.php:258-282 | a URL string and a request object with the same first page return the same response wherever the string does not fail, and where it fails the object follows cursors |
| TwitterPaging.FollowContent | src/Social/Twitter/Connection.php:271-278 | the final content is the first page's content followed, in order, by every later page's non-empty content |
| TwitterPaging.FollowCursors | src/Social/Twitter/Connection.php:271-277 | a completed loop keeps the first page's previous cursors and leaves `next_cursor_str` empty |
| TwitterPaging.FollowLastRequest | src/Social/Twitter/Connection.php:272 | the request's `cursor` is the last cursor followed |
| TwitterPaging.FollowStops | src/Social/Twitter/Connection.php:271 | the loop fails only on a page whose non-empty content is not an array, and runs out of fuel only after `fuel` pages |
| TwitterPaging.PaginateCollects | src/Social/Twitter/Connection.php:261-282 | the whole of `singleRequest`: content concatenated, previous cursors kept, last cursor in the request |
| TwitterPaging.PendingFlags | src/Social/Twitter/Connection.php:298-299 | the pending flag of every entry, index by index |
| TwitterPaging.Mark | src/Social/Twitter/Connection.php:298-303 | every pending entry's request gets the cursor to follow, index by index |
| TwitterPaging.MergeEntry | src/Social/Twitter/Connection.php:313-324 | a non-object page freezes the entry to null; an object page on a null entry is an error; otherwise the page is merged and array content only grows |
| TwitterPaging.RoundUpTo | src/Social/Twitter/Connection.php:308-325 | the second loop keeps the batch's indices |
| TwitterPaging.Rounds | src/Social/Twitter/Connection.php:295-326 | the rounds keep the indices; they end with a result exactly when no entry is pending, and leave no entry pending |
| TwitterPaging.SendAll | src/Social/Twitter/Connection.php:291 | the initial batch: every request sent, index by index |
| TwitterPaging.RoundErrSticks | src/Social/Twitter/Connection.php:310-325 | an error stops the second loop: later entries are not merged |
| TwitterPaging.MultiRequest | src/Social/Twitter/Connection.php:290-329 | the loop over request objects returns `Multi`'s result and leaves the requests in `Multi`'s final state |
| TwitterPaging.MarkPending | src/Social/Twitter/Connection.php:297-304 | the first loop gives the pending flags and writes the cursors into the request objects |
| TwitterPaging.MarkRequest | src/Social/Twitter/Connection.php:298-303 | the first loop's body on entry i: the flag is `Pending`, `params['cursor']` of request i is set exactly when it is pending, and no other request of the batch changes |
| TwitterPaging.FetchRound | src/Social/Twitter/Connection.php:308-325 | the batch request and second loop of a round compute `RoundUpTo` |
| TwitterRounds.RoundEntries | src/Social/Twitter/Connection.php:310-325 | after the second loop, each fetched entry holds the merge of its page and the others are unchanged |
| TwitterRounds.RoundKeeps | src/Social/Twitter/Connection.php:310-325 | an entry a round does not fetch keeps its data and is not answered |
| TwitterRounds.RoundFreezes | src/Social/Twitter/Connection.php:314-317 | a fetched entry whose page is not an object becomes null |
| TwitterRounds.RoundAppends | src/Social/Twitter/Connection.php:319-324 | a fetched object entry stays an object and its array content only grows by the page's content |
| TwitterRounds.MergeKeepsContentKey | src/Social/Twitter/Connection.php:320 | a merge never changes the entry's content key |
| TwitterRounds.WholeBatchFrozenFails | src/Social/Twitter/Connection.php:308-320 | re-sending the whole batch makes a frozen entry whose request now answers with an object fail the round |
| TwitterRounds.WholeBatchRepeatsSettled | src/Social/Twitter/Connection.php:308-322 | re-sending the whole batch appends a settled entry's content array to itself |
| TwitterRounds.PendingOnlyKeepsSettled | src/Social/Twitter/Connection.php:298-308 | sending only the pending entries leaves an entry with nothing to follow as it was |
| TwitterConnection.HttpError | src/Social/Twitter/Connection.php:384-388 | a scalar result gives the status code, ` - ` and the result; anything else the base formatter's message |
| TwitterConnection.HttpErrorReadsBack | src/Social/Twitter/Connection.php:386 | the message's leading digits are the status code, followed by ` - ` and the result |
| TwitterConnection.StreamMethod | src/Social/Twitter/Connection.php:401 | POST exactly for `statuses/filter`, GET otherwise |
| TwitterConnection.Stream | src/Social/Twitter/Connection.php:399-405 | a new request with the chosen method and the parameters, paginated like `singleRequest` |
| LinkedIn.Decorate | src/Social/LinkedIn/Connection.php:71-77 | a truthy token is set as `oauth2_access_token`; no other query parameter or field changes; a falsy token changes nothing |
| LinkedIn.DecorateIdempotent | src/Social/LinkedIn/Connection.php:75 | decorating twice is decorating once |
| LinkedIn.DecorateOverwrites | src/Social/LinkedIn/Connection.php:75 | a token already present is overwritten in place; a new one is appended |
| LinkedIn.Connection.InitRequest | src/Social/LinkedIn/Connection.php:71-77 | changes the request object in place to its decoration with the connection's token |
| LinkedIn.HttpError | src/Social/LinkedIn/Connection.php:87-91 | the result's `message` when it is an object with `message` set, else the base formatter's message; never null |
| LinkedIn.AccessTokenUrl | src/Social/LinkedIn/Connection.php:101 | `dirname(authURL) . '/accessToken'` is `https://www.linkedin.com/uas/oauth2/accessToken` |
| LinkedIn.AccessTokenSpelling | src/Social/LinkedIn/Connection.php:45 | the authorization URL's directory followed by `/accessToken` spells the token endpoint |
| LinkedIn.AccessTokenRequest | src/Social/LinkedIn/Connection.php:99-102 | the token exchange is a POST of the parameters to the token endpoint |

## Findings

| source | as written | input that shows it | evidently intended | confidence | as-written member | corrected member |
|---|---|---|---|---|---|---|
| src/Social/Twitter/Connection.php:196 | the static `getBaseUrl` reads `$this->apiVersion`, a fatal error | any resource with no listed ancestor, e.g. `statuses/show` | the REST URL for the connection's API version | high, not executed | TwitterResources.ResolveBaseUrlAsWrittenFails | TwitterResources.ResolveBaseUrlMostSpecific |
| src/Social/Twitter/Connection.php:177 | `getFullUrl` resolves the host before trimming leading slashes, and the `dirname` walk never reaches `.` on a key starting with `/` | `/statuses/show` | resolve on the trimmed path | high, not executed | TwitterResources.LeadingSlashNeverResolves | TwitterResources.FullUrlOfPath |
| src/Social/Twitter/Connection.php:308 | every round re-sends the whole `$requests` batch instead of `$next` | two entries, one with a next cursor and one settled object whose content array is non-empty: the settled entry's array is appended to itself | re-send only the pending entries | high, not executed | TwitterRounds.WholeBatchRepeatsSettled | TwitterRounds.PendingOnlyKeepsSettled |

## Left out

- The transport (`parent::singleRequest`, `parent::multiRequest`) belongs to the base connection, which is not part of this model. It is a parameter: a total function from the request sent to the decoded response. A batch is answered entry by entry with that function, so answers that depend on the rest of the batch are not modelled.
- Query building (`buildUrl`) in `getFullUrl` belongs to the base connection and is not modelled. `FullUrl` stops at the joined URL.
- Floating-point numbers in responses are not modelled. Values are null, booleans, integers, strings, lists and objects.
- Paths: PHP strings are byte strings; the model reads them as sequences of characters. `\d` and `\w` are the ASCII classes of PCRE without Unicode support, so a multi-byte character never matches them. Every character the two patterns name is ASCII, so the byte and character readings agree.
- TwitterPaging.Paginate, TwitterPaging.SingleRequest: take a request object only. A URL-string request is modelled separately by `PaginateUrl`; how the base connection sends a string is not part of this model, so it is a parameter `sendUrl`.
- SingleRequest, MultiRequest: the loops run as long as the provider keeps sending cursors. The model bounds them by `fuel` and reports `OutOfFuel` when that runs out.
- MultiRequest: the source sends each batch in parallel. The model applies the answers in index order; since the transport is a function, the order does not change the answers.
- TwitterPaging.MultiRequest, TwitterPaging.MarkPending, TwitterPaging.MarkRequest: a batch that holds the same request object at two indices is not modelled; all three require distinct objects. In the source the first loop writes the cursor through the shared object. So in the first round the cursor written for the earlier index makes `isset(params['cursor'])` true for the later one, which is then not followed. In later rounds the cursor of the last pending index overwrites the others, and every index that shares the object is re-sent with that one cursor.
- TwitterResources.BaseUrl: requires a path that does not start with `/`. From such a path the loop ends only at a listed absolute key, and the host table lists none (`TableKeysRelative`), so the source's loop never ends there (`LeadingSlashNeverResolves`).
- TwitterResources.BaseUrl: takes the API version as a parameter, as the fallback intends (see Findings). A null URL (the default argument) is not modelled.
- TwitterResources.DetectType: `$resourceTypes` is not declared in `src/Social/Twitter/Connection.php`. It would come from the base `Social\Connection` class or the `Social\OAuth1` trait, and neither is part of this model, so the type table is a parameter. The model reports the loop that never ends (at an unlisted `/`) as `Endless`, because it detects the repetition, rather than running on.
- A response whose first property is a cursor key leaves `list($key)` null. The model reads and writes the empty property name, as PHP 7.1 and later do; older PHP versions raise an error here instead.
- `array_merge` on a non-array, `get_object_vars` on a non-object and the property write into a URL-string request are modelled as the PHP 8 errors they raise. Earlier PHP versions warned and went on instead.
- `getAuthUrl` and `auth` (the OAuth 1.0a handshake of RFC 5849) are not modelled: they need HTTP, `parse_str`, the session store, `$_GET` and redirects.
- `setAccessInfo` and request signing are not modelled: they depend on the OAuth1 support, which is not part of this model.
- The one-line API wrappers (`search`, `searchUsers`, `me`) and both constructors are not modelled: they call into the base connection and entity classes.
- `stream`'s `writefunction` sink is I/O and is not modelled. Stream keeps only the request it builds and the pagination of the response.
- TwitterConnection.HttpError, LinkedIn.HttpError: the base connection's formatter (`parent::httpError`) is not part of this model. Its message is a parameter.
- LinkedIn.Connection.InitRequest: `parent::initRequest` is not part of this model. The method takes the request the base connection initialised.
- LinkedIn.AccessTokenRequest: `post` belongs to the base connection. The model gives the request it sends (verb, URL, parameters), before any decoration.
