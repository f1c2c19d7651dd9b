# Coupang rank-checking agent — a verified model of its decision logic

The agent takes a keyword task from a hub server, searches Coupang for the
keyword in a headless browser, and locates the target product among the
organic (non-sponsored) results of up to ten pages. It reports the product's
global rank and a record of its listing back to the hub. Around the browser
and HTTP plumbing sit five pieces of deterministic decision code, and this
project models them:

- **Target locator** (`crawler.dfy`, module `Crawler`).
  - A result page is a sequence of entries, and a search session records what the browser saw.
  - `FindProductInPage` drops sponsored entries. It extracts the `/vp/products/`, `itemId=` and `vendorItemId=` ids from each link and returns the record of the first match.
  - `SearchCoupang` walks the pages and turns a local position into the global rank `(page - 1) * 72 + local`.
  - The record helpers (`toNumber`, `pickUrlFromImg`, `iconKeyFromUrl`, `findUnitInfo`, `detectDiscountTypes`) are modelled as well.
- **Connection-mode state machine** (`proxy_manager.dfy`, module `ProxyManagement`).
  - The class `ProxyManager` holds the mode, the current proxy, the consecutive-use count, the cached proxy list and the lifetime statistics.
  - Each method that changes these is proved against a pure transition on a `ProxyState` value.
  - Lemmas about call sequences show that "local mode ⇒ no current proxy" holds throughout and that statistics never decrease.
- **Error classifier and URL filters** (`utils.dfy`, module `Utils`).
  - `GetErrorType` classifies an error message by ordered substring search, and `FormatError` prefixes the message with its category.
  - `MatchesDomain` does exact, `*.`-suffix and glob host matching.
  - `HasBlockedExtension` does a case-insensitive suffix test on the path.
- **Backoff scheduler and request filter** (`agent.dfy`, module `Agent`).
  - The class `Backoff` holds the main loop's `currentDelay` and performs one cycle's update.
  - `FilterRequest` is the blocked domain → blocked type → blocked extension decision.
  - `GetContentType` gives the content type of a stub response.
  - `ProcessKeyword` is the search-then-report task.
- **Result payload builder** (`api.dfy`, module `Api`).
  - `GetKeyword` maps the hub's assignment reply to a task.
  - `SendResult` applies the `error`/`id`/`rank` gates and builds the POST body field by field.
  - `Restore` reads a payload back and is proved to invert the serializer.

The supporting modules are:

- `wrappers.dfy`: `Option`, `Result`, JavaScript truthiness and `||` on strings and on loosely typed values.
- `strings.dfy`: substring search, trimming, ASCII lower-casing, digits, join and split.
- `config.dfy`: the constants read from `config.js`.

Where the prose description of the system and the code disagree, the model
follows the code:

- **Delay after a failed task.** A processed task that fails waits 13 seconds every time, not an escalating 3, 13, 23, … seconds. Acquiring the task first resets the delay to 3000 ms (`index.js:223`) and the failure then escalates it once (`index.js:239`).
- **No retry budget.** Nothing retries a task with a budget. `index.js` never uses `ProxyManager`, and no loop bounded by `maxRetries` exists.
- **`switchToAnotherProxy` does not count a switch.** It changes only the current proxy and leaves `switches` alone.
- **`sendResult(null)` reports `EXCEPTION`.** The `result.error` check reads a property of `null` before the `!result` guard is reached, so the throw is caught and reported as `EXCEPTION`, not `INVALID_DATA`.

## Model

| member | source | states |
|---|---|---|
| Crawler.ToNumber | crawler.js:192 | an absent or empty text gives null, and any other text gives a number |
| Crawler.ToNumberReadsDigits | crawler.js:192 | a text without a dot reads as the number formed by its digits alone, so `1,770원` is 1770 |
| Crawler.ToNumberOfDecimal | crawler.js:192 | the decimal writing of any n reads back as n |
| Crawler.PickUrlFromImg | crawler.js:204-211 | a truthy `src` wins; otherwise the result is a single URL token taken from `srcset` (no space, no comma) |
| Crawler.PickUrlLastCandidate | crawler.js:204-211 | with no `src`, the URL of the LAST `srcset` candidate is picked, whether the `srcset` has one candidate or several, and whether that candidate has a descriptor, trailing white space or neither |
| Crawler.IconKeyFromUrl | crawler.js:214-218 | null exactly for the empty URL; a key never holds `?`, `/` or `@` |
| Crawler.IconKeyOfBadgeUrl | crawler.js:214-218 | for `dir/key@suffix?query` the key is `key`: the query, the directories and everything from `@` are dropped |
| Crawler.DeliveryKeys | crawler.js:370-371 | at most one key per badge image, and no key is empty (falsy keys are filtered) |
| Crawler.DeliveryKeysAll | crawler.js:370-371 | when every badge yields a key, the keys are those of the images, in order |
| Crawler.DeliveryKeysSkip | crawler.js:370-371 | an image without a URL contributes nothing |
| Crawler.FindUnitInfo | crawler.js:221-235 | returns the unit note of the FIRST node that has one, and null iff no node has one |
| Crawler.UnitNoteRead | crawler.js:221-235 | `(<label>당 <digits and commas>원)` reads as the label ending in `당` and the price with commas removed |
| Crawler.MatchFromLabel | crawler.js:226 | a unit label found always ends in `당` and holds no parenthesis |
| Crawler.UnitNoteExample | crawler.js:221-235 | `(1세트당 1,770원)` reads as label `1세트당` and price 1770 |
| Crawler.DiscountTypes | crawler.js:238-245 | each keyword is reported iff the text contains it; the result is a duplicate-free sub-list of `[와우할인, 쿠폰할인]` in that order |
| Crawler.CoupickDetected | crawler.js:358-361 | any entry image whose `src` contains `coupick` in any letter case marks the entry as Coupang's pick |
| Crawler.CaptureFrom | crawler.js:273-279 | the first `(\d+)` after a marker, as `href.match`; stated by `Crawler.CaptureDigits`, `Crawler.CaptureLeftmost` and `Crawler.CaptureNone` |
| Crawler.CaptureDigits | crawler.js:273-275 | an id read from a link is a non-empty run of digits |
| Crawler.CaptureLeftmost | crawler.js:273-275 | the id is the digit run after the LEFTMOST occurrence of its marker |
| Crawler.CaptureNone | crawler.js:273-275 | without a marker followed by a digit, there is no id |
| Crawler.IdAfterMarker | crawler.js:273-279 | `…/vp/products/111?…` yields product id `111` |
| Crawler.Matches | crawler.js:282-292 | an entry with a link matches iff the code equals `String` of its data id, product id, item id or vendor item id; stated by `Crawler.FallbackMatches` and `Crawler.NullCodeMatchesMissingId` |
| Crawler.FallbackMatches | crawler.js:289-292 | an entry whose `itemId` equals the code matches through the option check |
| Crawler.NullCodeMatchesMissingId | crawler.js:282-290 | the code `"null"` matches an entry whose link lacks an `itemId`, since `String(null)` is `"null"` |
| Crawler.IsAd | crawler.js:257-262 | an entry is sponsored iff it has an `AdMark` element or its link holds `sourceType=srp_product_ads`; its consequences are stated by `Crawler.AdInvisible` and `Crawler.AdNeverCounts` |
| Crawler.VisibleEntries | crawler.js:257-262 | never longer than the page; its meaning is stated by `Crawler.VisibleEntriesMeaning` and `Crawler.VisibleAppend` |
| Crawler.VisibleEntriesMeaning | crawler.js:257-262 | the filtered entries are entries of the page and none of them is sponsored |
| Crawler.VisibleAppend | crawler.js:257-262 | filtering is done entry by entry and keeps display order |
| Crawler.AdInvisible | crawler.js:257-262 | removing a sponsored entry does not change the filtered list |
| Crawler.FirstMatchFromMeaning | crawler.js:265-292 | the match found is a matching entry and no earlier entry matches; no match means no entry matches |
| Crawler.FindProductInPage | crawler.js:189-409 | returns exactly the record of the page's first matching non-sponsored entry, ranked by its 1-based position |
| Crawler.PageMatchMeaning | crawler.js:265-292 | a page has a match iff some filtered entry matches; the match is non-sponsored and is the first one |
| Crawler.FindInPageRecord | crawler.js:265-400 | the page's record is that of the first match with rank = its position + 1, and is null iff there is no match |
| Crawler.AdNeverCounts | crawler.js:257-265 | a sponsored entry never changes the page's result, even if its id equals the target |
| Crawler.BuildRecord | crawler.js:295-400 | the record of a matched entry; its fields are stated by `Crawler.SoldOutSuppressesPrices` and `Crawler.UnitFieldsOfRecord` |
| Crawler.RecordOf | crawler.js:350-400 | the record built with the entry's first unit note; stated by `Crawler.UnitFieldsOfRecord` and `Crawler.Rerank` |
| Crawler.SoldOutSuppressesPrices | crawler.js:295-348 | a sold-out entry has no base price, sale price or discount; name, thumbnail, rating, delivery keys and unit fields are as if it were not sold out |
| Crawler.UnitFieldsOfRecord | crawler.js:350-400 | the record's unit label and unit price are those of the first unit note, a zero price giving null |
| Crawler.Search | crawler.js:11-119 | what `searchCoupang` returns or throws; stated by `Crawler.GlobalRank`, `Crawler.ScanPagesNone`, `Crawler.NoResultIsRankZero`, `Crawler.ErrorPageIsBlocked` and `Crawler.ListMissingFails` |
| Crawler.SearchCoupang | crawler.js:11-119 | the search returns or throws exactly what the page-walk specification `Search` gives |
| Crawler.PageStep | crawler.js:58-101 | a page without a match passes the search to the next page; a match ends it with rank `(p - 1) * 72 + local` |
| Crawler.GlobalRank | crawler.js:58-101 | a first match on page p at filtered index i gives rank `(p - 1) * 72 + (i + 1)`, which is at least 1 |
| Crawler.ScanPagesNone | crawler.js:58-104 | the search ends with rank 0 iff no reached page within `maxPages` has a match |
| Crawler.ScanPagesFirst | crawler.js:58-101 | the earliest page with a match decides the result |
| Crawler.PagesBeyondLimitIgnored | crawler.js:57-58 | pages after the tenth are never looked at |
| Crawler.NoResultIsRankZero | crawler.js:46-51 | the no-result marker gives rank 0 before any page is searched |
| Crawler.ErrorPageIsBlocked | crawler.js:41-44 | an error page throws an error the classifier reports as BLOCKED |
| Crawler.ListMissingFails | crawler.js:169-183 | a product list that never appears, without an error signature, throws "Product list not found" |
| ProxyManagement.InitialState | proxy-manager.js:9-24 | a new manager is local, has no proxy, use count 0 and all statistics at 0 |
| ProxyManagement.ProxyManager.constructor | proxy-manager.js:9-24 | the new object's state is the initial state, with `maxProxyUses` 5, the default API URL unless a truthy one is given, and rotation on success unless turned off |
| ProxyManagement.RandomProxy | proxy-manager.js:51-61 | fails with "No proxies available" iff the list is empty; otherwise returns a member of the list |
| ProxyManagement.ProxyManager.GetRandomProxy | proxy-manager.js:51-61 | returns the draw `RandomProxy` gives for the cached list |
| ProxyManagement.FetchStep | proxy-manager.js:29-46 | a successful fetch replaces the cached list and nothing else; a failed one changes nothing |
| ProxyManagement.ProxyManager.FetchProxies | proxy-manager.js:29-46 | the manager's new state is `FetchStep` of the old one |
| ProxyManagement.SwitchToProxyStep | proxy-manager.js:66-83 | completes iff a proxy list is or becomes available; then proxy mode, a listed proxy from the cached or freshly fetched list, count 0, switches + 1, and nothing else changed; an empty list with a failed fetch throws and changes nothing |
| ProxyManagement.ProxyManager.SwitchToProxy | proxy-manager.js:66-83 | the new state and the completion are those of `SwitchToProxyStep` |
| ProxyManagement.ProxyManager.ShouldRetryLocal | proxy-manager.js:88-94 | true iff proxy mode with the use count at `maxProxyUses` or more |
| ProxyManagement.SwitchToLocalStep | proxy-manager.js:99-106 | local mode, no proxy, count 0, switches + 1, the list kept |
| ProxyManagement.ProxyManager.SwitchToLocal | proxy-manager.js:99-106 | the new state is `SwitchToLocalStep` of the old one, and it asks for a browser restart |
| ProxyManagement.AnotherProxyStep | proxy-manager.js:111-120 | only the current proxy changes, to a list member, returning true in proxy mode; local mode changes nothing and returns false; switches and count are untouched |
| ProxyManagement.ProxyManager.SwitchToAnotherProxy | proxy-manager.js:111-120 | the new state and the answer are those of `AnotherProxyStep` |
| ProxyManagement.BrowserOptions | proxy-manager.js:125-135 | adds `proxy.server` iff proxy mode with a truthy proxy; all other options are kept |
| ProxyManagement.ProxyManager.GetBrowserOptions | proxy-manager.js:125-135 | returns `BrowserOptions` of the current state |
| ProxyManagement.IsBlockedError | proxy-manager.js:140-152 | a message is a blocking error iff it holds one of the four HTTP/2 block signatures; stated by `ProxyManagement.BlockedErrorIsBlocked` |
| ProxyManagement.BlockedErrorIsBlocked | proxy-manager.js:140-152 | every message `isBlockedError` accepts is also classified BLOCKED by `getErrorType` |
| ProxyManagement.ProxyManager.IsProxyError | proxy-manager.js:157-169 | answers the proxy-error test for the current mode |
| ProxyManagement.TimeoutNeedsProxy | proxy-manager.js:157-169 | a message containing `Timeout` (capital T) and none of the other proxy markers is a proxy error in proxy mode and never one in local mode |
| ProxyManagement.AttemptStep | proxy-manager.js:174-182 | local mode counts only a local attempt; proxy mode counts a proxy attempt and one more use |
| ProxyManagement.ProxyManager.IncrementAttempt | proxy-manager.js:174-182 | the new state is `AttemptStep` of the old one |
| ProxyManagement.ProxyManager.ShouldRotateProxy | proxy-manager.js:187-190 | true iff proxy mode, rotation on success and a use count above 0 |
| ProxyManagement.RotateStep | proxy-manager.js:195-206 | true iff proxy mode, a non-empty list and a NEW proxy differs from the old; only the current proxy may change; local mode or an empty list changes nothing |
| ProxyManagement.ProxyManager.RotateProxy | proxy-manager.js:195-206 | the new state and the answer are those of `RotateStep` |
| ProxyManagement.SuccessStep | proxy-manager.js:211-220 | only the active mode's success counter goes up; the use count is unchanged |
| ProxyManagement.ProxyManager.MarkSuccess | proxy-manager.js:211-220 | the new state is `SuccessStep` of the old one |
| ProxyManagement.RunPreserves | proxy-manager.js:66-220 | any sequence of method calls keeps "local mode ⇒ no proxy", never lowers a statistic, and keeps the rotation setting |
| ProxyManagement.AttemptsCount | proxy-manager.js:174-182 | k attempts in proxy mode raise the use count and the proxy attempts by k, and change nothing else |
| ProxyManagement.RetryAfterMaxUses | proxy-manager.js:66-94 | after a switch to proxy, a retreat to local is due iff at least 5 attempts have been made |
| ProxyManagement.LocalIsQuiet | proxy-manager.js:88-135 | after a switch to local, neither a retreat nor a rotation is due, and no proxy option is added |
| ProxyManagement.RotationDueAfterAttempt | proxy-manager.js:66-190 | with rotation on success, a rotation is not due right after a switch and is due after one attempt |
| Utils.GetErrorType | utils.js:85-138 | the category of a message; stated by `Utils.ErrorTypeMeaning`, `Utils.BlockedWins` and `Utils.TimeoutBeforeNetwork` |
| Utils.ErrorTypeMeaning | utils.js:85-138 | BLOCKED iff some block pattern occurs; TIMEOUT iff none does and a timeout pattern does; NETWORK_ERROR likewise after both |
| Utils.BlockedWins | utils.js:125-127 | a block pattern wins over any timeout or network pattern in the same message |
| Utils.BlockedMarkerClassified | utils.js:100 | any message containing `BLOCKED` is BLOCKED |
| Utils.UpperCaseTimeoutUnknown | utils.js:87-137 | matching is case-sensitive: `TIMEOUT` alone is UNKNOWN_ERROR |
| Utils.TimeoutBeforeNetwork | utils.js:125-131 | a message with a timeout pattern and no block pattern is TIMEOUT, whatever network patterns it also holds |
| Utils.FormatError | utils.js:141-154 | the output ends with the message and starts with the label of its category |
| Utils.FormatErrorRecoversCategory | utils.js:141-154 | the category can be read back from the formatted text |
| Utils.MatchesDomain | utils.js:172-199 | whether a hostname is blocked; stated by `Utils.MatchesDomainMeaning`, `Utils.WildcardSubdomain`, `Utils.LiteralPatternExact` and `Utils.OneStarPattern` |
| Utils.MatchesDomainMeaning | utils.js:172-199 | no hostname matches nothing; otherwise a match iff some pattern matches the hostname |
| Utils.WildcardSubdomain | utils.js:180-185 | `*.d` matches `d` itself and every host ending in `.d` |
| Utils.LiteralPatternExact | utils.js:178-194 | a pattern without `*` matches only by equality |
| Utils.OneStarPattern | utils.js:187-194 | `a*b` matches a host iff it starts with `a`, ends with `b` and is long enough for both, each `.` matching any character |
| Utils.ImageHostBlocked | utils.js:187-194 | `image*.coupangcdn.com` matches `image<anything>.coupangcdn.com` |
| Utils.DotWildcardHostBlocked | utils.js:187-194 | the dots of `image*.coupangcdn.com` match any character |
| Utils.ShortHostAllowed | utils.js:187-194 | a host shorter than 20 characters never matches `image*.coupangcdn.com` |
| Utils.HasBlockedExtension | utils.js:202-209 | whether a path has a blocked extension; stated by `Utils.HasBlockedExtensionMeaning` |
| Utils.HasBlockedExtensionMeaning | utils.js:202-209 | true iff the lower-cased path ends with some lower-cased extension; no path gives false |
| Utils.ExtensionCaseInsensitive | utils.js:202-209 | a path ending in an extension is blocked, in its own letter case and lower-cased |
| Agent.Backoff.constructor | index.js:13-16 | the delay starts at 3000 ms, within its bounds |
| Agent.Escalate | index.js:208 | the escalated delay never exceeds 300000 ms, never drops a delay within bounds, and is the cap or 10000 ms more |
| Agent.NextDelay | index.js:201-257 | one cycle keeps the delay within [3000, 300000] |
| Agent.Backoff.RunCycle | index.js:201-257 | the delay becomes `NextDelay` of the cycle, and the wait is its whole seconds |
| Agent.DelayBounded | index.js:201-257 | after any sequence of cycles the delay is within [3000, 300000] |
| Agent.EmptyPollsGrow | index.js:208 | k empty polls add 10000 ms each until the cap of 300000 ms |
| Agent.EmptyPollWaits | index.js:208-209 | from the start, the k-th consecutive empty poll waits 3 + 10k seconds below 30 polls and 300 seconds from then on |
| Agent.CapHolds | index.js:208-256 | at the cap, empty polls and crashes keep the delay at 300000 ms |
| Agent.ProcessedTaskDelay | index.js:223-239 | a successful task leaves 3000 ms (3 s); a failed one always 13000 ms (13 s) |
| Agent.GetContentType | index.js:81-89 | image, stylesheet, script and font get fixed types; anything else is `text/plain` |
| Agent.FilterRequest | index.js:37-75 | a request continues iff its domain, its type and its extension are all allowed; a stub has the content type of the request's type |
| Agent.Route | index.js:36-76 | with filtering disabled every request continues |
| Agent.FilterOrder | index.js:37-75 | the domain check comes first, then the type, then the extension |
| Agent.FontsStubbed | index.js:46-62 | a font request is answered with a `font/woff2` stub |
| Agent.ImageServerScriptStubbed | index.js:46-53 | a script from an `image*.coupangcdn.com` host is stubbed for its domain |
| Agent.ResultDataOf | index.js:129-152 | the result sent carries no error, the task's id and the found rank |
| Agent.ProcessKeyword | index.js:109-185 | a search that throws fails the task and posts nothing; a search that returns completes the task and posts exactly `PostedBody` of its record |
| Agent.NotFoundReportedAsZero | api.js:81-88 | a product not found is posted with rank 0 and no product data |
| Agent.SoldOutReportedWithoutPrices | api.js:81-142 | a sold-out product is posted with its rank, the sold-out flag and no price fields |
| Agent.CycleOf | index.js:233-239 | a processed task is a success iff the task completed |
| Api.GetKeyword | api.js:19-60 | a 404 gives null and only a 404 does; a successful body maps field by field with the product code taken from `product_code`, or `product_id` when that is falsy; a body without `success`/`data` is an invalid-format error |
| Api.ZeroCodeFallsBack | api.js:28 | a numeric product code 0 is falsy, so the task's product code is the product id |
| Api.Gate | api.js:69-78 | a truthy `error` is skipped first; the result passes iff there is no error, the id is truthy and the rank is defined |
| Api.PostedRank | api.js:83 | the posted rank is the result's rank, or 0 for a null or missing one |
| Api.ZeroIdIsInvalid | api.js:75-78 | a numeric id 0 or an empty id is INVALID_DATA, whatever the rank |
| Api.PostedBody | api.js:66-88 | a body is posted iff the gates pass |
| Api.SendResult | api.js:66-179 | a null result reports EXCEPTION; a gated result reports its reason and posts nothing; otherwise it posts the serialized body and is accepted iff the hub answers with success |
| Api.Serialize | api.js:81-145 | the product data of the body; stated by `Api.RestoreSerialize`, `Api.NotFoundPostsNoData` and `Api.NoEmptyStrings` |
| Api.RestoreSerialize | api.js:90-145 | reading back the posted body of a found product gives the result, with empty strings as null, empty lists as absent, and sold-out text only when sold out |
| Api.NotFoundPostsNoData | api.js:86-88 | rank 0 posts no product data |
| Api.NoEmptyStrings | api.js:90-127 | the body never holds an empty string field |
| Strings.SplitJoin | api.js:133-136 | splitting the `,`-joined keys gives the keys back when none holds a comma |

## Left out

- Browser automation is not modelled. Navigation, waiting for selectors, scrolling, hovering, clicking and button styling are outcomes recorded in `Crawler.Session`. The DOM queries inside `page.evaluate` are the fields of `Crawler.Entry`, and browser launch and page lifecycle are left out.
- A failed page move, whether no next-page button or an error while moving, is one outcome: the pages after the last reached one are absent from `Crawler.Session`.
- Crawler.FindProductInPage: an entry whose `<a>` has no `href` attribute is read as an entry without a link. In the source, `href.includes` in the ad filter and `href.match` then throw on `null`, and the search fails. `Crawler.Entry.href` does not tell a missing attribute from a missing link.
- The HTTP calls of `api.js` are replaced by the reply they produced (`Api.AssignReply`, `Api.PostReply`). So is the proxy-list fetch of `fetchProxies`, which becomes an `Option` of the fetched list.
- `Math.random` in `getRandomProxy` is a `pick` parameter, and the proxy drawn is element `pick mod |list|`. Every index can be drawn, but no distribution is modelled.
- `parseFloat` of the rating is kept as the rating text. `toNumber` of a text that keeps a `.` is the stripped text (`Crawler.Decimal`), not a floating-point number.
- Elapsed-time formatting, `showProgress`, `log`, `countdown`, `sleep`, colours, and the `getStatus`/`logStats` reports are console output.
- `refreshProxyList` only re-runs the fetch, which is `FetchStep`.
- `Strings.Lower` lower-cases ASCII letters only. That is exact for the percent-encoded pathnames `new URL` produces and for the `/coupick/i` test, which has no `u` flag.
- `new URL` parsing is replaced by the hostname and pathname as inputs, where `None` stands for a URL that does not parse.
- Only `.` and `*` are modelled in `matchesDomain` patterns. The configured patterns use no other regular-expression syntax.
- `getReplacementContent` decodes fixed base64 stubs, which is byte plumbing.
- The signal handlers, `process.exit` and `simulate.js` are process and test plumbing.
- The infinite `while (true)` of `main` is not modelled. `Agent.Backoff.RunCycle` is one cycle, and `Agent.DelayAfter` is any finite run of cycles.
- JSON key order in the POST body is not modelled. The body is the record `Api.ProductData`, with one optional field per key.
- A field that arrives as a number is a `Value.Number` holding an integer, so 0 is falsy and `String` of it is its decimal numeral. Fractional numbers and `NaN` are not modelled as ids or codes.
- `processKeyword` exceptions other than those of the search are not modelled. These include a failing `newPage` or route setup, and a throw while shaping the result.
- Agent.ProcessKeyword: the elapsed time and the log lines are not in the outcome.
- Agent.NextDelay: the bound is stated for delays inside [3000, 300000] only, since every delay the loop ever holds starts there (`Agent.DelayBounded`).
