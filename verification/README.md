# BeeHappy extension core, modelled in Dafny

BeeHappy is a browser extension for YouTube live chat. It keeps a catalogue of custom emotes,
written in chat as tokens like `[bh:pepe]`, and shows them as emotes. This project models its
core in Dafny and proves properties of the model:

- **the emote store** (`emote_map.dfy`, module `EmoteMap`). It covers:
  - slug and token construction;
  - the token map as an insertion-ordered dictionary;
  - the combined token regex;
  - the refresh that merges the records of a relay reply;
  - listener notification.
- **the chat rewriter** (`rewriter.dfy`, module `Rewriter`). It finds tokens in the text nodes of
  chat messages with the regex's leftmost-first `exec` loop. Each match is replaced by a
  `span.bh-emote`.
- **the suggestion panel** (`suggestions.dfy`, module `Suggestions`). It covers:
  - the word being typed;
  - accent-insensitive matching;
  - the first eight suggestions;
  - keyboard navigation;
  - completion;
  - the bootstrap and health-check state machine.
- **the user cache** (`users.dfy`, module `Users`). It covers:
  - a least-recently-cached map of at most 100 users, with its eviction loop;
  - in-flight lookups;
  - the streamer-name search.
- **the floating controls panel** (`overlay.dfy`, module `Overlay`). It covers:
  - the token-to-image map;
  - drag, resize, show, hide and toggle;
  - placement next to the chat.
- **the emote picker** (`picker.dfy`, module `Picker`). It covers:
  - the search filter;
  - API records and their fallback list;
  - visibility;
  - the initialisation retry budget.
- **the background worker** (`background.dfy`, module `Background`). It covers:
  - API URL building;
  - request validation;
  - mapping each fetch outcome to the reply a content script receives.

Shared modules:

- `Wrappers`: `Option`.
- `Text`: ASCII character classes, `Lower`, `Trim`, `StartsWith`, `Contains`, decimal
  rendering.
- `Seqs`: `Subsequence`.
- `Config`: the backend URLs.
- `CatalogLists`: the `{ global, streamer }` list object that two consumers expect from the
  store.

Modelling conventions:

- **Stateful objects become classes.** These are the emote store, the rewriter, the suggestion
  manager, the user cache, the controls panel and the picker. Their methods state the whole new
  state against the old one.
- **Loops become methods with invariants.** This covers the record merge, the rewrite loop, the
  eviction loop and the selector searches. Each method is proved against a specification
  function.
- **The browser becomes values.**
  - DOM queries, timers and replies from the network or the relay are parameters.
  - A timer firing is an explicit method call.
  - `encodeURIComponent` and `new URL(...)` resolution are function parameters.
  - Pixel geometry uses whole numbers.
- **JavaScript truthiness.** A string field that is only tested for truthiness is `""` when
  absent. A field tested with `typeof` or `Array.isArray` is an `Option`.

## Model

| member | source | states |
|---|---|---|
| Config.GetApiUrl | constants.js:96-100 | a content-side URL is the development base followed by the endpoint, unchanged |
| EmoteMap.Slug | emote-map.js:91-97 | `slugify`: the placeholder iff no ASCII letter or digit survives folding; otherwise a slug over `[a-z0-9_]` with no leading, trailing or doubled underscore |
| EmoteMap.Collapse | emote-map.js:96 | every maximal run of non-`[a-z0-9]` characters becomes exactly one underscore |
| EmoteMap.TrimUnderscores | emote-map.js:97 | leading and trailing underscores are removed and nothing else |
| EmoteMap.TrimUnderscoresCutsEnds | emote-map.js:97 | the result is the slice `s[i..j]` of the input, with only underscores before `i` and from `j` on |
| EmoteMap.CollapseKeepsAlnums | emote-map.js:96 | a string made only of `[a-z0-9]` is left as it is |
| EmoteMap.CollapseSplits | emote-map.js:96 | a non-empty run of non-`[a-z0-9]` characters between alphanumerics (or an end) becomes one underscore, and the two sides collapse independently: `Collapse(a + run + b) == Collapse(a) + "_" + Collapse(b)` |
| EmoteMap.TokenRoundTrip | emote-map.js:103-104 | a token `[bh:<slug>]` has the token shape and gives back its slug, so two names share a token iff they share a slug |
| EmoteMap.TokenMap.Set | emote-map.js:109 | assigning a new key appends it to the key order; assigning an existing key keeps its position |
| EmoteMap.BuildRegex | emote-map.js:23-27 | `null` exactly when the map has no keys; otherwise the source is the escaped keys joined by `\|` |
| EmoteMap.ParseSource | emote-map.js:24-26 | escaping makes the alternation unambiguous: reading the regex source back gives exactly the keys, in order |
| EmoteMap.NamedItems | emote-map.js:101-102 | the records kept are exactly those that are objects with a string name |
| EmoteMap.Merge | emote-map.js:99-110 | the merge starts from a copy of the old map and visits each record once |
| EmoteMap.MergeKeys | emote-map.js:99-110 | a refresh never drops or reorders an old key and adds exactly the tokens of the named records |
| EmoteMap.MergeValue | emote-map.js:109 | a token's value after a refresh is its old value if non-empty, otherwise the first non-empty name of a record with that token |
| EmoteMap.KeepsExistingValues | emote-map.js:109 | a refresh never overwrites a non-empty value |
| EmoteMap.ListIsPerRecord | emote-map.js:100-107 | the list has one entry per named record, in input order, duplicates included |
| EmoteMap.ListedTokensAreKeys | emote-map.js:107-109 | every listed token is a key of the merged map |
| EmoteMap.MergeTokensOnly | emote-map.js:103-109 | every key a refresh adds has the token shape |
| EmoteMap.MergeRecords | emote-map.js:99-110 | the `forEach` loop builds exactly the merged map and the list |
| EmoteMap.MergeItem | emote-map.js:100-110 | one callback adds one step to the merge and the record's entry, if any, to the list |
| EmoteMap.EmoteStore.EnsureInitialized | emote-map.js:51-65 | true exactly when a token map has been loaded |
| EmoteMap.EmoteStore.Init | emote-map.js:132-134 | the promise resolves to `undefined` whatever the state |
| EmoteMap.EmoteStore.InitReporting | emote-map.js:51-65 | the promise resolves to whether the map is loaded |
| EmoteMap.EmoteStore.OnUpdate | emote-map.js:138-140 | only functions are registered, at the end of the listener list |
| EmoteMap.EmoteStore.Notify | emote-map.js:117-121 | every listener is called once, in registration order, with the same snapshot, even after one throws |
| EmoteMap.EmoteStore.BeginRefresh | emote-map.js:71-76 | a refresh starts iff none is in flight, and then the guard is set |
| EmoteMap.EmoteStore.CompleteRefresh | emote-map.js:78-128 | success iff the relay's reply is a success carrying an array; on failure nothing changes; on success the new map, regex and list are as specified and every listener is notified; the guard stays set after an unusable reply |
| EmoteMap.EmoteStore.RefreshFromApi | emote-map.js:68-129 | a refresh while one is in flight returns false and changes nothing; otherwise it succeeds iff the reply is usable, the guard stays set exactly after an unusable reply, a failure changes nothing else and notifies nobody, and a success installs the merged map, its regex and the list and delivers that snapshot to each listener in registration order |
| EmoteMap.StuckAfterUnusableReply | emote-map.js:80 | after one unusable reply, the next refresh does not start |
| EmoteMap.EmoteStore.CompleteRefreshReleasing | emote-map.js:78-128 | the same outcome as `CompleteRefresh`, with the guard released on every path; on success each listener receives the new snapshot, in registration order |
| EmoteMap.RestartsAfterUnusableReply | emote-map.js:68-129 | with the guard released, a refresh after an unusable reply starts again |
| Rewriter.Exec | content-script.js:72-74 | `exec` reports a match at or after `lastIndex`, naming one of the alternatives and lying wholly inside the text |
| Rewriter.ExecFinds | content-script.js:74 | the alternative `exec` reports is the one the alternation picks at the reported position, so it is a prefix of the text there |
| Rewriter.ExecLeftmost | content-script.js:74 | no alternative matches between `lastIndex` and the reported match, and none anywhere when `exec` fails |
| Rewriter.FirstKeyIsFirst | content-script.js:74 | at a position, the alternation picks the first alternative, in key order, that matches |
| Rewriter.Reassembly | content-script.js:71-84 | the plain segments and the matched tokens, read back in order, are the original text |
| Rewriter.PiecesShape | content-script.js:77-84 | plain segments are never empty and every token segment is one of the keys |
| Rewriter.FragmentHasSpan | content-script.js:74-81 | a text containing any key yields at least one emote span |
| Rewriter.EmitMatch | content-script.js:75-83 | one turn of the `exec` loop appends the gap and the span for the match, keeps the fragment equal to that of the text read so far, and moves `last` strictly forward |
| Rewriter.Rewrite | content-script.js:68-85 | the `exec` loop builds exactly the fragment of the segments: text nodes for gaps, spans showing `emoteMap[tok] \|\| tok` |
| Rewriter.RewriteLeavesSpan | content-script.js:52-87 | a rewrite that changes a message leaves a span in it |
| Rewriter.TransformIdempotent | content-script.js:54 | transforming a transformed message changes nothing |
| Rewriter.UnmatchedNodeKept | content-script.js:60-65 | a text node containing no key is not touched |
| Rewriter.RescanAgreesWithTransform | content-script.js:103-110 | the whole-text test in `rescanExisting` only skips messages the transform would leave unchanged |
| Rewriter.Replacer.constructor | content-script.js:3-20 | the map is the store's map or `{}`, and the regex is built from its keys |
| Rewriter.Replacer.TransformMessage | content-script.js:52-87 | a message that already has a span, or a missing regex, leaves the message unchanged; otherwise each matching text node is replaced by its fragment |
| Rewriter.Replacer.RescanExisting | content-script.js:89-113 | every message without a span whose text matches is transformed; the others are kept |
| Rewriter.Replacer.ReplaceEmotes | content-script.js:22-50 | re-entry is ignored; otherwise every message is transformed and the processing flag is cleared |
| Rewriter.Replacer.OnStoreUpdate | content-script.js:14-19 | the new map and regex are adopted and every message is brought to its transformed form |
| Suggestions.ReplaceNbsp | emote-suggestions.js:429 | no-break spaces become spaces, and every other character is kept |
| Suggestions.QuerySuffixIsLongest | emote-suggestions.js:430-433 | the match is the longest run of `[\w:\[\]\-]` characters at the end of the text |
| Suggestions.CurrentWordIsLongestSuffix | emote-suggestions.js:428-434 | the current word is a suffix of the input, made only of word characters, and the character before it is not one |
| Suggestions.NoWordAfterSpace | emote-suggestions.js:428-434 | text ending in a space has no current word |
| Suggestions.NormalizeForMatch | emote-suggestions.js:463-474 | the normal form holds only lower-case ASCII letters and digits |
| Suggestions.NormalizeAgreesWithSlugFold | emote-suggestions.js:463-474 | normalising for matching equals the emote map's fold with everything but letters and digits dropped |
| Suggestions.NormalizeIdempotent | emote-suggestions.js:463-474 | normalising twice is normalising once |
| Suggestions.Lookup | emote-suggestions.js:436-461 | at most eight suggestions |
| Suggestions.FilterExact | emote-suggestions.js:440-458 | an entry passes the filter iff it is in the catalogue and its lowered token or label starts with the query, or its normal form starts with the normalised query |
| Suggestions.FilterOrdered | emote-suggestions.js:439-458 | the filtered entries keep catalogue order |
| Suggestions.FilterPrefixOrdered | emote-suggestions.js:436-461 | every prefix of the filtered entries keeps catalogue order |
| Suggestions.LookupSpec | emote-suggestions.js:436-461 | suggestions are matching catalogue entries in catalogue order; with at most eight matches every match is suggested |
| Suggestions.CatalogueEntries | emote-suggestions.js:347-364 | the catalogue holds an entry for exactly the list items with a token or a name, global ones first, each with a non-empty label |
| Suggestions.EntriesOfOrdered | emote-suggestions.js:352-358 | the entries keep the list's order: they are a subsequence of the items mapped one by one |
| Suggestions.CatalogueOrder | emote-suggestions.js:347-364 | the catalogue is the global entries followed by the streamer entries, each in its list's order |
| Suggestions.StoreUpdatesEmptyTheCatalogue | emote-suggestions.js:243-257 | what the store hands to update listeners yields an empty catalogue |
| Suggestions.CycleStaysOnARow | emote-suggestions.js:568-575 | one arrow-key step stays on a row and wraps at both ends |
| Suggestions.CompletedSpec | emote-suggestions.js:599-615 | completion keeps the text before the current word, ends with the token and a space, and leaves no current word |
| Suggestions.Panel.Hidden | emote-suggestions.js:628-635 | a visible panel with a container is hidden with its rows, highlight and last query cleared; any other panel is unchanged |
| Suggestions.Panel.Rendered | emote-suggestions.js:476-544 | with a container the panel is shown with one row per item and the first highlighted, or shown empty with nothing highlighted for no items; without a container nothing changes |
| Suggestions.HiddenSpec | emote-suggestions.js:628-635 | hiding twice is hiding once |
| Suggestions.Manager.constructor | emote-suggestions.js:5-44 | the initial fields; the update listener is registered iff the store already offers `onUpdate` |
| Suggestions.Manager.Hide | emote-suggestions.js:628-635 | the panel becomes `Hidden` and nothing else changes |
| Suggestions.Manager.Render | emote-suggestions.js:476-544 | the panel becomes `Rendered(items)` and nothing else changes |
| Suggestions.Manager.HandleInput | emote-suggestions.js:366-394 | a current word shorter than two characters hides the panel; a word equal to the last query changes nothing; otherwise the lookup is rendered and remembered |
| Suggestions.Manager.MoveActive | emote-suggestions.js:568-575 | the highlight moves by one row with wrap-around |
| Suggestions.Manager.SetActive | emote-suggestions.js:577-580 | the highlight is set to the row under the pointer |
| Suggestions.Manager.ClearActive | emote-suggestions.js:594-597 | no row is highlighted |
| Suggestions.Manager.ApplySuggestion | emote-suggestions.js:599-615 | the input text is completed with the token and the panel is hidden |
| Suggestions.Manager.ClickActive | emote-suggestions.js:396-414 | Enter or Tab with a highlighted row applies it; with nothing highlighted, or no chat input, nothing changes |
| Suggestions.Manager.HandleKeydown | emote-suggestions.js:396-414 | keys act only while the panel is visible: arrows move the highlight with wrap-around and change nothing else, Enter and Tab apply a highlighted row and hide the panel and are no-ops with nothing highlighted, Escape hides |
| Suggestions.Manager.Dismiss | emote-suggestions.js:239-241 | blur or a click outside hides the panel |
| Suggestions.Manager.StopHealthCheck | emote-suggestions.js:113-119 | the interval stops |
| Suggestions.Manager.StartHealthCheck | emote-suggestions.js:84-86 | a fresh interval with the miss counter at zero |
| Suggestions.Manager.ResetState | emote-suggestions.js:194-237 | panel, bootstrap and health fields return to their initial values |
| Suggestions.Manager.ScheduleRetry | emote-suggestions.js:56-82 | a retry is armed only while fewer than 20 attempts have been made |
| Suggestions.Manager.RegisterUpdateListener | emote-suggestions.js:243-257 | the listener is registered once, and only when the store offers `onUpdate` |
| Suggestions.Manager.Attach | emote-suggestions.js:164-185 | a successful bootstrap ends ready, attached, with the container, the health check running, no retry armed and the attempt counter at zero |
| Suggestions.Manager.BootstrapIfReady | emote-suggestions.js:121-192 | ready iff `init()` resolves to true and the chat document and input are found; a failed attempt counts and retries; success starts the health check and loads the catalogue |
| Suggestions.Manager.RetryFires | emote-suggestions.js:56-77 | the retry clears the pending flag and bootstraps again: a failed attempt counts and re-arms while attempts remain, a success attaches and loads the catalogue, an exhausted or ready manager only drops the flag |
| Suggestions.Manager.HealthTick | emote-suggestions.js:88-111 | a live input resets the miss counter; the third miss in a row resets the state and schedules a bootstrap |
| Suggestions.Manager.OnStoreUpdate | emote-suggestions.js:243-257 | the catalogue is replaced; an open panel is hidden for a short word, kept for the same word, and otherwise shows the new catalogue's lookup |
| Suggestions.Manager.OnUrlChanged | emote-suggestions.js:44-52 | a navigation resets the state and bootstraps from scratch: ready iff `init()` resolves to true and the chat is found, otherwise one attempt made and a retry armed; on success the panel container exists and health is reset, on failure panel and health are the initial ones; the catalogue is rebuilt only when the store answers; the input text and the update-listener flag (set only on success when the store offers `onUpdate`) carry over |
| Suggestions.BootstrapWithStore | emote-suggestions.js:141-147 | with the store's `init()`, the first attempt and every retry fail; the manager is never ready and stops with all 20 attempts made and no retry armed |
| Suggestions.NavigateWithStore | emote-suggestions.js:44-52 | with the store's `init()`, a navigation leaves the manager not ready with one attempt made and a retry armed |
| Suggestions.BootstrapWithReportingStore | emote-suggestions.js:141-147 | with `init()` reporting the map, the first attempt succeeds iff the map is loaded and the chat is found |
| Users.Normalise | users-management.js:21-24 | the key is lower-case and has no white space at either end |
| Users.NormaliseIdempotent | users-management.js:21-24 | normalising a key again gives the same key |
| Users.KeysAreNormalised | users-management.js:21-24 | a non-empty normalised name is a cache key (no upper case, no white space at either end), and a cache key normalises to itself |
| Users.UserEndpointIgnoresConstants | users-management.js:8-16 | both branches of `resolveUserEndpoint` give the same URL |
| Users.RemoveSpec | users-management.js:30-32 | deleting a key removes exactly that key and keeps the others distinct and in order |
| Users.EvictKeepsNewest | users-management.js:36-39 | eviction keeps the newest 100 keys, in order |
| Users.CachingRefreshesRecency | users-management.js:26-40 | re-caching a key makes it the newest; the cache never exceeds 100 entries |
| Users.FirstNamedNone | users-management.js:171-181 | no name is found iff every selector's trimmed text is blank |
| Users.FirstNamedFirst | users-management.js:171-181 | a name found is the trimmed, non-blank text of a selector all of whose predecessors have blank text |
| Users.ExtractStreamerName | users-management.js:171-181 | no name without a document; otherwise the first non-blank selector text |
| Users.SearchSelectors | users-management.js:173-179 | the loop finds what `FirstNamed` specifies |
| Users.GetCurrentStreamer | users-management.js:183-198 | the local document is tried before a readable top document |
| Users.EvictOldest | users-management.js:36-39 | the `while` loop drops the oldest keys until at most 100 remain, from both the order and the map |
| Users.InsertNewest | users-management.js:30-39 | after the insertion the key is newest, maps to the user, and the size bound holds |
| Users.UserCache.constructor | users-management.js:18-19 | an empty cache with no lookups in flight |
| Users.UserCache.GetCachedUser | users-management.js:210-212 | the cached user for the normalised name, if any |
| Users.UserCache.CacheUser | users-management.js:26-40 | an empty key is ignored; otherwise the user is stored as the newest entry and the bound is kept |
| Users.UserCache.Store | users-management.js:30-39 | the user is stored as the newest entry and the invariant holds |
| Users.UserCache.FetchUserByName | users-management.js:90-115 | a lookup already in flight is joined; otherwise one is started for the endpoint |
| Users.UserCache.SettleLookup | users-management.js:92-114 | a settled lookup leaves the in-flight set, and a success is cached |
| Users.UserCache.AnswerLookup | users-management.js:64-86 | a success reply caches its user and releases the key; a runtime error or the timer releases it; a reply without `success` changes nothing |
| Users.UserCache.AnswerLookupRejecting | users-management.js:64-86 | every event releases the key, and only a success reply caches |
| Users.LookupAfterFailureReply | users-management.js:78-84 | after a reply without `success`, the key stays in flight and the next lookup of the name joins it |
| Users.LookupAfterRejectedReply | users-management.js:78-84 | with the reply rejecting, the next lookup of the name starts a new request |
| Users.UserCache.GetUser | users-management.js:138-160 | an empty name is rejected with the fixed message; a cached name resolves at once; otherwise a lookup is fetched |
| Users.UserCache.UpdateUserList | users-management.js:117-136 | null for an empty name, the cached user on a hit, otherwise a fetch |
| Users.UserCache.RemoveUser | users-management.js:220-222 | exactly the normalised key is removed |
| Users.UserCache.ClearCache | users-management.js:217-219 | the cache becomes empty |
| Users.CachedUserIgnoresCase | users-management.js:210-212 | lookups ignore case and surrounding white space |
| Overlay.ImageMapSpec | overlay-chat.js:35-40 | the keys are exactly the truthy tokens; each key's image is the url of the last item with that token |
| Overlay.StreamerOverridesGlobal | overlay-chat.js:35-40 | a streamer emote overrides a global one with the same token |
| Overlay.StoreGivesNoImages | overlay-chat.js:31-41 | with what the store provides, the image map is empty |
| Overlay.ClampSize | overlay-chat.js:575-588 | the new size is at most the viewport bound, at least the minimum when room allows, and kept when already in range |
| Overlay.ClampToViewport | overlay-chat.js:368-369 | a repositioned coordinate is never negative, fits the panel when the viewport allows, and is kept when it already fits |
| Overlay.FirstShownSpec | overlay-chat.js:411-432 | a container is found iff some selector's element has positive width, and it is the first such element |
| Overlay.FindChatContainer | overlay-chat.js:422-429 | the selector loop returns what `FirstShown` specifies |
| Overlay.Controls.constructor | overlay-chat.js:8-19 | no panel, not dragging or resizing, not placed by the user |
| Overlay.Controls.Init | overlay-chat.js:21-66 | an answer other than true arms a retry and changes nothing else; a true one builds the image map and toggles the panel: a new panel is shown from its template style, a missing one is dropped, a failed fetch toggles the old one |
| Overlay.Controls.OnStoreUpdate | overlay-chat.js:46-53 | the image map is rebuilt from the lists received |
| Overlay.Controls.StartDrag | overlay-chat.js:434-453 | ignored while the picker is visible; otherwise dragging starts with the grab offset |
| Overlay.Controls.Drag | overlay-chat.js:455-467 | ignored unless dragging; the corner follows the pointer at the grab offset |
| Overlay.Controls.StopDrag | overlay-chat.js:469-479 | dragging stops; the panel counts as user-placed iff a drag was active |
| Overlay.Controls.StartResize | overlay-chat.js:545-565 | with a panel, resizing starts along the axis from the pointer and the current size |
| Overlay.Controls.ResizeMove | overlay-chat.js:567-589 | ignored unless resizing; axis `x` changes only the width, `y` only the height, `both` both, each clamped |
| Overlay.Controls.ResizeUp | overlay-chat.js:591-601 | resizing stops |
| Overlay.Controls.Reposition | overlay-chat.js:351-409 | the style becomes `Placed`: at the chat container's corner, clamped into the viewport, with default sizes where unset; otherwise at the fallback place |
| Overlay.Controls.Hide | overlay-chat.js:603-607 | with a panel, display becomes `none` |
| Overlay.Controls.Show | overlay-chat.js:534-542 | the style becomes `Shown`: display `flex`, repositioned only when the user has not placed the panel |
| Overlay.Controls.Toggle | overlay-chat.js:609-620 | the style becomes `Toggled`: a `flex` panel is hidden, any other shown |
| Overlay.Placed | overlay-chat.js:351-409 | a placed panel has non-negative pixel left and top and a set width and height, keeping the width and height it had next to a container; display is untouched |
| Overlay.PlacedTwice | overlay-chat.js:351-409 | placing twice on the same page is placing once |
| Overlay.Shown | overlay-chat.js:534-542 | a shown panel displays `flex`; a user-placed one keeps its place, any other gets a non-negative place |
| Overlay.Toggled | overlay-chat.js:609-620 | display switches between `flex` and `none`; hiding changes nothing else |
| Overlay.ToggleTwice | overlay-chat.js:609-620 | toggling a user-placed shown or hidden panel twice restores its style |
| Overlay.InitWithStore | overlay-chat.js:21-59 | with the store's `init()`, every run only arms another retry: no panel, no image map |
| Overlay.InitWithReportingStore | overlay-chat.js:21-59 | with `init()` reporting the map, a loaded map builds the image map and shows a created panel without a retry |
| Picker.YoutubeList | emote-picker.js:148-152 | one youtube emote per emoji, with id and name both equal to the emoji |
| Picker.FromRecord | emote-picker.js:163-168 | id and url are kept, the kind is beehappy, and a missing name becomes `[bh:<id or unknown>]` |
| Picker.BeeHappyList | emote-picker.js:154-192 | a good reply gives one emote per record, in order; no runtime, no reply, a failure or a non-array gives exactly the six defaults |
| Picker.FilterTermCounts | emote-picker.js:199-202 | the filter keeps each matching emote as often as it occurs and drops the others |
| Picker.FilterTermOrdered | emote-picker.js:199-202 | the filter keeps the tab's order |
| Picker.FilteredSpec | emote-picker.js:198-203 | an empty term shows the whole tab; otherwise exactly the emotes whose lowered name or id contains the term, in order |
| Picker.ItemOf | emote-picker.js:215-230 | a cell is an image iff the emote is a beehappy one with a url; otherwise it is the name as text |
| Picker.ItemsOf | emote-picker.js:208-234 | one cell per filtered emote, in order |
| Picker.EmotePicker.constructor | emote-picker.js:2-25 | the youtube tab, no emotes, an empty search, no retries, not initialised |
| Picker.EmotePicker.Init | emote-picker.js:27-85 | missing elements arm a retry while fewer than 10 have been made; setup runs only the first time every element is found |
| Picker.EmotePicker.RetryFires | emote-picker.js:59-60 | the armed 100 ms retry fires: the retry is no longer pending and `init` runs again with what the page holds by then |
| Picker.EmotePicker.RetryInit | emote-picker.js:376-380 | a fresh retry budget, then `init` |
| Picker.EmotePicker.SetupPicker | emote-picker.js:87-101 | the picker is hidden, the lists are loaded and the grid is drawn |
| Picker.EmotePicker.RenderEmotes | emote-picker.js:195-241 | with a grid, it shows the current tab through the filter |
| Picker.EmotePicker.OnSearchInput | emote-picker.js:106-109 | the term is the lowered input value and the grid is redrawn |
| Picker.EmotePicker.SelectTab | emote-picker.js:114-132 | the tab changes and the grid is redrawn |
| Picker.EmotePicker.ShowPicker | emote-picker.js:290-314 | with a picker element, it becomes visible |
| Picker.EmotePicker.HidePicker | emote-picker.js:346-364 | hidden, and the search is cleared when a search box exists; the grid is not redrawn |
| Picker.EmotePicker.TogglePicker | emote-picker.js:272-288 | visibility flips |
| Picker.EmotePicker.SelectEmote | emote-picker.js:243-270 | with a picker, the emote's name is copied and the picker ends hidden |
| Background.StripTrailingSlash | background.js:25 | at most one trailing `/` is removed |
| Background.ResolveApiHost | background.js:23-26 | the host is the production URL, without a trailing `/` |
| Background.ResolveApiUrl | background.js:28-34 | an empty endpoint gives the host; otherwise host, one `/`, and the endpoint without its own leading `/` |
| Background.LeadingSlashOptional | background.js:28-34 | an endpoint gives the same URL with or without its leading `/` |
| Background.FetchEmotes | background.js:154-189 | a value iff the reply is 2xx; the value is the reply's JSON; a timeout has a fixed message; a non-2xx reply is `API request failed: <status> <statusText>`; any other error keeps its message |
| Background.FetchUser | background.js:191-235 | a value iff the reply is 2xx; the value is the reply's JSON; a timeout has its own fixed message; a non-2xx reply is `User request failed: <status> <statusText>`, with ` | <body>` appended when the body is non-empty; any other error keeps its message |
| Background.Wrap | background.js:41-48 | a failure reply carries the error's message, or the action's default when the message is empty |
| Background.UserInfoReply | background.js:74-123 | a user is found iff the reply is 2xx, and it is the reply's JSON; an abort is "Request timeout"; a non-2xx reply is `API Error: <status>, data: <body>`; any other error keeps its raw message |
| Background.HandleMessage | background.js:37-151 | invalid streamer-set and user-lookup requests are answered at once and fetch nothing; valid requests fetch their URL, `getUserInfo` with a stored token fetches `/api/users/me` from the API host; a fetch's 2xx reply is relayed as `{success: true, data}` (emotes, streamer set) or `{success: true, user}` (user lookup), and a failure as `error.message ||` the action's default ("Failed to fetch emotes", "User lookup failed", "Failed to fetch streamer emote set"), so never with an empty message |
| Background.DefaultStreamerUrl | background.js:135 | the default streamer-set URL is host + `/api/emotes/sets/user/` + the encoded name |
| Background.TimeoutsHaveFixedMessages | background.js:184-186 | timed-out fetches are reported with fixed messages, per action |

## Findings

| source | as written | input that shows it | evidently intended | confidence | as-written member | corrected member |
|---|---|---|---|---|---|---|
| emote-suggestions.js:143-144 | `if (!emotesReady)` on what `init()` resolves to, while the store's `init` (emote-map.js:132-134) awaits `ensureInitialized` and resolves to `undefined` | any page: every bootstrap attempt fails until the 20 attempts are spent, and the overlay's `init` (overlay-chat.js:23-25, 54-59) re-arms a one-second retry forever | `init()` resolves to what `ensureInitialized` reports, so a loaded map makes the manager ready and the overlay show | high (not executed) | Suggestions.BootstrapWithStore | Suggestions.BootstrapWithReportingStore |
| users-management.js:78-84 | a reply without `success` has already cleared the timer and only logs, its `reject` commented out | a relay reply `{success:false}` for a name: the lookup promise never settles, the name stays in `inFlightLookups`, and every later lookup of it joins that promise | the reply rejects, so the name is released and a later lookup starts a new request | high (not executed) | Users.LookupAfterFailureReply | Users.LookupAfterRejectedReply |
| emote-map.js:80 | `return false` inside the `try`, after `_inFlight = true`, without clearing the flag | a relay reply `undefined`, or `{success:false}`, or `data` that is not an array | the guard is cleared on every exit, so a later refresh can run | high (not executed) | EmoteMap.StuckAfterUnusableReply | EmoteMap.RestartsAfterUnusableReply |

`EmoteMap.EmoteStore.CompleteRefresh` and `EmoteMap.EmoteStore.RefreshFromApi` model the code as
written. `EmoteMap.EmoteStore.CompleteRefreshReleasing` is the corrected completion.

`EmoteMap.EmoteStore.Init` models `init` as written. `EmoteMap.EmoteStore.InitReporting` is the
corrected `init`; `Overlay.InitWithStore` and `Overlay.InitWithReportingStore` show the same two
halves for the overlay. The bootstrap methods take what `init()` resolves to as a parameter
(`BootEnv.initAnswer`, `Init`'s `initAnswer`), so they serve both.

`Users.UserCache.AnswerLookup` models the reply handling as written.
`Users.UserCache.AnswerLookupRejecting` is the corrected handling.

## Left out

- I/O:
  - `fetch`, `chrome.runtime.sendMessage`/`onMessage`, `chrome.storage` and the clipboard are not modelled.
  - Their results are parameters: `RelayOutcome`, `Transport`, `Response`, `storedToken` and `SettleLookup`'s outcome.
- Timers and observers:
  - `setTimeout`/`setInterval` retries and debounces, and the MutationObserver wiring of `startObserver` and content-script `init`, are not modelled.
  - A timer or callback firing is an explicit method call: `RetryFires`, `HealthTick`, `Init`, `RetryInit`.
- `getChatDoc` polling and `findChatInput` are not modelled. Their result is the flags of `BootEnv`.
- Unicode:
  - `normalize("NFD")` is not modelled: `Fold` only drops U+0300..U+036F marks already present.
  - Case folding covers ASCII only (`Text.Lower`).
  - `encodeURIComponent` and `new URL` are function parameters.
- DOM layout and styling are not modelled:
  - `createOverlay`'s HTML (`overlay-chat.html` is not part of this model; what `createOverlay` leaves, and the new panel's inline style, are the parameter `CreateOutcome`), `ensureContainer`, `positionPanel`, `highlightActive`;
  - the styling in `renderSuggestions`;
  - `adjustPickerPosition`, `placeCaretAtEnd`, the listener wiring;
  - `loadPosition`/`savePosition`, `destroy`.
- Geometry:
  - floating-point rectangles are not modelled;
  - `Math.round` of a whole number is the number itself.
- Promise interleavings are sequential:
  - a refresh is `BeginRefresh` then `CompleteRefresh`;
  - a user lookup is `FetchUserByName` then `SettleLookup`;
  - `updateUserList`'s second `cacheUser` after its `await` is `SettleLookup`.
- Exceptions thrown by DOM calls are not modelled: the `catch` of `bootstrapIfReady`, the `catch` of picker `init`, the `catch` of `replaceEmotes` (content-script.js:45-46) and of `rescanExisting` (content-script.js:112), and `normalizeForMatch`'s unreachable `catch`.
- A 2xx reply body that is not JSON is not modelled, in `fetchEmotes` (background.js:180), `fetchUserByName` (background.js:225) and `getUserInfo` (background.js:103, :108).
- `getUserInfo`: `JSON.stringify` of the error body is the body text.
- `inject_helper_all_frames`, `onHistoryStateUpdated` and `onInstalled` are only touched:
  - the first keeps the channel open without a reply;
  - the other two are not modelled.
- Unknown picker tab names are not modelled. Only the two tabs exist.
- Users: the `cacheSize`, `cache` and `getAllUsers` getters are not modelled.
- Whole source files not modelled:
  - `helpers.js` (positioning code that duplicates the overlay's);
  - `popup.js` (messaging, plus a filter like the picker's);
  - `emote-utils.js` (a toast);
  - `auth.js` (fetch and storage);
  - `emote-picker-config.js` (static configuration).
- Suggestions.Manager.MoveActive: requires `delta` to be 1 or -1, the only values the key handler passes.
- Overlay.Controls.Reposition: requires a panel. The source dereferences it without a check. `show` calls it only with a panel, but the resize listener that `init` registers (overlay-chat.js:61-62) also calls it after `createOverlay` left no panel (overlay-chat.js:198-201), where the source throws a `TypeError`. The resize listener is not modelled.
