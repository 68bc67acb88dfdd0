# Image-board → chat webhook bot: the check cycle in Dafny

The bot polls an image board's search API for each configured search. It
forwards posts it has not announced yet to a chat webhook. For each search it
keeps a list of the post IDs it has sent, under the search's `tags` string.

This project models the core of `main.js`:

- **The per-search state update of `performCheck`.** The state object is a
  `map<string, Entry>`. The class `CheckCycle.StateTable` holds it and updates
  it in place, as the source does.
  - A missing or non-array entry is reset to `[]`.
  - A set view of the list is taken once.
  - A failed fetch (`null`) skips the search.
  - Fetched posts whose `String(id)` is already stored are filtered out.
  - The rest are reversed and delivered one by one.
  - The ID of each post whose delivery succeeded is pushed.
  - Finally the list is cut to its newest 200 entries.
  - The whole cycle runs this body for each search in configured order.
- **The pure parts of `sendToDiscord`.** These are the colour fallback, the
  tag-string truncation, the payload and the webhook URL with optional
  `?thread_id=` routing.
- **The startup configuration checks of `runPollingLoop`.**

The network is an input, not a model. A fetch is `Option<seq<Post>>`: `None`
is the `null` that `fetchPostsFromApi` returns when the request throws. A
malformed response is `Some([])`. The result of the k-th delivery attempt of a
search is `succeeds(k)`; in a cycle, search i uses `succeeds(i)`. The state
that `loadState` reads is the constructor's argument. The state that
`saveState` writes is `entries` after `PerformCheck`.

Files:

- `records.dfy`: posts, searches, settings, and the decimal `String(id)` with
  its inverse.
- `notifier.dfy`: the message side.
- `check_cycle.dfy`: the specification functions and the imperative cycle.
- `cycle_properties.dfy`: the proved properties of the cycle.
- `startup.dfy`: the configuration checks.
- `wrappers.dfy`: `Option`.

Behaviour of main.js that the model keeps as written:

- An over-long tag string becomes 1023 characters: its first 1020 characters
  followed by `"..."` (main.js:68-69).
- The truncated tag string is never placed in the payload (main.js:67-82,
  `TagsNotSent`).
- A failed fetch still writes `[]` under a key that was missing or not an
  array, because the reset comes before the `continue`. A failed fetch never
  trims (main.js:109-117, `FetchFailure`).
- The set view of the stored list is built once and not refreshed during
  delivery. A post the API returns twice is therefore sent and recorded twice
  (main.js:112, 118, 129, `RepeatedPostSentTwice`). Lists stay free of
  duplicates only when each fetch has distinct IDs (`SearchKeepsNoDuplicates`).
- The state key is the search's `tags`, so two searches with the same `tags`
  share one list (main.js:107). A failed fetch leaves a list unchanged over a
  cycle when no other search shares its key (`FailedFetchIsolated`).

## Model

| member | source | states |
|---|---|---|
| Records.IdString | main.js:118 | `String(id)` of a post ID: at least one character, all decimal digits, no leading zero |
| Records.ParseIdString | main.js:118 | reading the decimal text of an ID back gives the ID |
| Records.IdStringInjective | main.js:118 | two IDs have the same `String(id)` exactly when they are equal, so string comparison against stored IDs compares IDs |
| Notifier.EmbedColor | main.js:56-65 | the vibrant swatch's colour if any, else the muted one's, else the default 0x0099ff (also when sampling failed); always a 24-bit colour |
| Notifier.TruncateTags | main.js:67-70 | the shown string is at most 1024 long; it equals the input exactly when the input is at most 1024 long; otherwise it is 1023 long: the first 1020 characters, then "..." |
| Notifier.TruncateIdempotent | main.js:67-70 | truncating an already shown tag string changes nothing |
| Notifier.WebhookUrl | main.js:84-85 | the URL starts with the configured webhook URL and is longer than it exactly when the thread ID is a non-empty string |
| Notifier.ThreadRoundTrip | main.js:84-85 | the `?thread_id=` suffix read back from the URL is exactly the configured thread ID, and absent when none routes |
| Notifier.BuildPayload | main.js:72-92 | one embed whose link points back at the post's ID, whose title is the prefix followed by the search's tags, and which carries the post's image, the given colour, the rating field, the fixed footer and the time of sending; the payload's username is the fixed bot name and its avatar URL the configured one |
| Notifier.TagsNotSent | main.js:67-82 | the payload does not depend on the post's tags: the truncated string is computed and unused |
| CheckCycle.KeepNewest | main.js:135-137 | the trimmed list is the suffix of the list of length min(length, 200) |
| CheckCycle.SearchOutcome | main.js:106-138 | after one search the key holds an array; the key set gains at most that key; every other key keeps its value |
| CheckCycle.SelectUnsent | main.js:112-118 | the loop builds exactly the fetched posts whose ID string is not in the set view of the stored list, in API order |
| CheckCycle.StateTable.constructor | main.js:104 | the table starts as the loaded state |
| CheckCycle.StateTable.ProcessSearch | main.js:106-138 | the new state is `SearchOutcome` of the old one, and the posts handed to delivery are the reversed unsent posts, or none on a failed fetch |
| CheckCycle.StateTable.DeliverInOrder | main.js:124-132 | the list under the key becomes the old list followed by the IDs of the posts whose delivery succeeded, in delivery order; nothing else changes |
| CheckCycle.CycleAttempts | main.js:106-133 | one list of delivered posts per configured search, in configured order |
| CheckCycle.StateTable.PerformCheck | main.js:101-140 | the saved state is the searches' outcomes applied in configured order, and the delivered posts are `CycleAttempts` of the loaded state |
| CycleProperties.CycleAttemptsAt | main.js:106-133 | search i of a cycle delivers the new posts of its own fetch, judged against the state left by the searches before it |
| CycleProperties.UnsentMembership | main.js:118 | a fetched post passes the filter exactly when its ID string is not stored |
| CycleProperties.DeliveredExactlyUnsent | main.js:112-124 | a post is handed to delivery exactly when it was fetched and its ID string was not in the key's list at the start of the search |
| CycleProperties.DeliveryReversesApiOrder | main.js:118-124 | delivery order is exactly the reverse of the API's order among the unsent posts |
| CycleProperties.UnsentKeepsOrder | main.js:118 | filtering keeps the API's newest-first order |
| CycleProperties.DeliveredOldestFirst | main.js:118-124 | when the API answers newest first, new posts are delivered oldest first |
| CycleProperties.UnsentDistinct | main.js:118 | filtering keeps IDs distinct |
| CycleProperties.ReverseDistinct | main.js:124 | reversing keeps IDs distinct |
| CycleProperties.AppendedMembership | main.js:125-130 | an ID string is appended exactly when an attempt that succeeded delivered a post with that ID |
| CycleProperties.AllDelivered | main.js:125-130 | when every delivery succeeds, every delivered ID is appended, in delivery order |
| CycleProperties.NoneDelivered | main.js:125-130 | when every delivery fails, nothing is appended |
| CycleProperties.AppendedNoDuplicates | main.js:125-130 | distinct delivered IDs give distinct appended IDs |
| CycleProperties.RecentSurviveTrim | main.js:135-137 | at most 200 freshly appended IDs all survive trimming, as the list's tail |
| CycleProperties.KeepNewestNoDuplicates | main.js:135-137 | trimming keeps a list free of duplicates |
| CycleProperties.FetchFailure | main.js:109-117 | on a failed fetch an existing array is left exactly as it was, and a missing or non-array entry becomes `[]` |
| CycleProperties.SearchUpdatesList | main.js:124-137 | after a successful fetch the list has at most 200 entries; without trimming it is the old list followed by the successfully delivered IDs; every entry is old or delivered successfully now |
| CycleProperties.FailedDeliveryRetried | main.js:112-130 | a new post whose delivery attempts all failed is not recorded, and any later fetch that returns it again hands it to delivery again |
| CycleProperties.DeliveredNotRepeated | main.js:112-137 | a post delivered successfully is not delivered again by the next search of its key, in a later cycle or by a search sharing its tags |
| CycleProperties.SearchKeepsNoDuplicates | main.js:112-137 | a duplicate-free list stays duplicate-free when the fetched IDs are distinct |
| CycleProperties.RepeatedPostSentTwice | main.js:112-129 | a post the API returns twice is delivered twice and recorded twice, breaking the no-duplicates property |
| CycleProperties.FullListScenario | main.js:129-137 | a full list of 200 with one new successful post drops its oldest entry and ends with the new ID |
| CycleProperties.NewPostsOrderScenario | main.js:118-124 | stored 100, 101 and fetched 103, 102, 101: posts 102 then 103 are delivered |
| CycleProperties.NewPostsScenario | main.js:106-137 | in that scenario, with both deliveries succeeding, the list becomes 100, 101, 102, 103 |
| CycleProperties.SearchKeepsBound | main.js:106-138 | one search keeps every list within 200 entries |
| CycleProperties.CycleKeepsBound | main.js:106-138 | a whole cycle keeps every list within 200 entries |
| CycleProperties.CycleKeepsNoDuplicates | main.js:106-138 | a whole cycle keeps every list duplicate-free when each fetch has distinct IDs |
| CycleProperties.CycleFrame | main.js:106-138 | a cycle leaves every key that is not some search's tags exactly as it was |
| CycleProperties.CycleMaterialisesKeys | main.js:107-111 | after a cycle every configured search's key holds an array, even when its fetch failed |
| CycleProperties.FailedFetchIsolated | main.js:109-117 | a search whose fetch failed keeps its stored array over the whole cycle, when no other search shares its tags |
| Startup.CheckConfig | main.js:146-157 | polling may start exactly when all three checks pass; the error reported is the first failing check, in the order webhook, credentials, searches |

## Left out

- The HTTP requests (`axios.get` to the image board, `axios.post` to the webhook) are network I/O. Their outcomes are inputs of the model.
- The query string (`encodeURIComponent(tags.concat(ratings))`, the page size 6 and page 0) is not modelled. It is a thin wrapper over a platform function.
- The response-shape check of `fetchPostsFromApi` is not modelled. A malformed response is given to the model as `Some([])`.
- Image colour sampling is a foreign library over image decoding. Its palette, or its failure, is an input of `EmbedColor`.
- `loadState` and `saveState` are not modelled. They do file and JSON I/O; an unreadable file loads as `{}`.
- Timing is not modelled: the 2-second wait between posts, the polling interval, the 60-second retry, and the timestamps. None of them changes the state.
- The infinite polling loop, `process.exit(1)`, and console logging are not modelled. `CheckConfig` reports which check fails; every failure exits with status 1.
- Every element of the API's `post` array is a post object. Other elements are not modelled. For `null` or `undefined`, reading `post.id` in the filter throws. A falsy non-null element such as `0`, `false` or `""` has no `id`, so its ID string is "undefined" and it passes the filter. `sendToDiscord` then returns early for it (main.js:54), and nothing is pushed.
- Every post has a string `tags` field. A post without one makes `tagsString.length` (main.js:68) throw outside any `try`. The exception escapes `performCheck` before `saveState` (main.js:140), so that cycle's updates are lost. Posts already delivered in that cycle are delivered again in the next one.
- Post IDs are assumed to be below 2^53. Below that bound, JSON numbers are exact and `String(id)` is the plain decimal text that `IdString` gives. Larger IDs can be rounded so that two distinct IDs collide, and from 10^21 on `String(id)` prints exponent notation.
- Stored arrays that hold non-string elements (a hand-edited state file) are not modelled. Entries are lists of strings.
- Post IDs that the API sends as strings are not modelled. Post IDs are non-negative integers.
- Notifier.TruncateTags: lengths count Unicode characters, whereas JavaScript's `length` and `substring` count UTF-16 code units. Strings with characters outside the Basic Multilingual Plane are measured differently.
- CycleProperties.DeliveredOldestFirst: assumes the API answers strictly newest first, as the image board does. For any other order, `DeliveryReversesApiOrder` states the exact order.
- CycleProperties.DeliveredNotRepeated: assumes at most 200 posts per fetch (the request asks for 6). With more, trimming could drop an ID appended in the same search. "In a later cycle" also assumes the cycle completed and its state was saved. A cycle aborted by an exception, such as a post without `tags`, saves nothing, so its deliveries repeat.
