# taillog — a verified model of the capture pipeline

taillog is a browser extension that shows a page's console output and its
XHR/fetch traffic in a side panel. Four pieces cooperate:

- an in-page capture script (`public/inject.js`);
- an element locator that opens a React component's source in an editor
  (`public/locator-inject.js`);
- a background worker that also listens to the debugger protocol and
  relays to connected panels (`public/background.js`);
- the panel's React view-model (`src/App.jsx` and the console, network and
  stash tabs).

This project models the logic of those pieces in Dafny and proves what
they promise.

| file | module | what it holds |
|---|---|---|
| `base.dfy` | `Base` | `Option`, JavaScript truthiness of strings, `startsWith`/`includes`/`split('?')[0]`/`toLowerCase`, number-to-text, `filter`, `slice(-n)` |
| `capture.dfy` | `Capture` | the capture script's policies as transition functions on value snapshots: circuit breaker, rate limiter, dispatch queue, console throttler, URL filter, `safeStringify` truncation, `shouldIgnore`, the bounded body reader |
| `capture_context.dfy` | `CaptureRuntime` | the same state as one mutable `CaptureContext` object. Every method is proved to move the state exactly as the `Capture` transition does, and the chunk-reading loop of `captureResponseBody` is proved against `Capture.ReadStream` |
| `locator.dfy` | `Locator` | path clean-up, IDE links, component names, the fiber walk (a method with two loops proved against a search function), the `throttle` closure, and the Alt-key/settings state |
| `background.dfy` | `Background` | the URL prefix filter and a `BackgroundState` object: the two 10-entry histories, the pending-request table, connections, debugger bookkeeping, and everything sent to panels |
| `panel.dfy` | `Panel`, `FilterFlags`, `ConsoleTab`, `NetworkTab`, `StashTab` | the panel's reducer and the tabs' pure data transforms |

Modelling conventions:

- **Time.** `Date.now()` is an explicit `now` argument.
- **Timers.** A pending `setTimeout` is a deadline field (`cooldownAt`, `flushAt`). It is consumed by an explicit "timer fires" method or function. That may only run while the timer is pending, and at a `now` no earlier than its deadline.
- **Asynchronous chrome callbacks.** Each outstanding callback is an entry of an in-flight list (`attachesInFlight`, `detachesInFlight`, `bodyFetches`). A completion method consumes one entry, in any order.
- **Messages sent.** Messages posted to panel ports are appended to `outbox`. Messages posted to the page are appended to `posted`.
- **Fiber tree.** The page's React fibers are an arena (`seq<Fiber>`) whose `return` and `_debugOwner` links point to earlier entries, so every walk ends.
- **Tab removal.** The tab-removal listener deletes `pendingRequests[tabId]` although that table is keyed by request id. This is modelled as written: the key is the tab id's decimal text. `Background.TabKeyMissesDottedIds` shows that this leaves every request whose id contains a `.` in place.

## Model

| member | source | states |
|---|---|---|
| Capture.InitialBreaker | public/inject.js:86-89 | a new breaker is closed with no errors and satisfies the breaker invariant |
| Capture.OpenBreaker | public/inject.js:103-116 | opening leaves an open breaker exactly as it was; a closed one opens with the cooldown armed 30000 ms after `now`; the error count and window start are kept |
| Capture.OpenIdempotent | public/inject.js:104 | opening twice is opening once, so no second cooldown is armed |
| Capture.RecordError | public/inject.js:91-116 | after more than 5000 ms since the window start the count restarts at 1 in a new window, otherwise it grows by one; the breaker is open afterwards iff it was open or the count reached 10; an error that trips a closed breaker arms the cooldown for `now + 30000`; an armed cooldown is untouched and a closed breaker arms none; the invariant is kept |
| Capture.CooldownElapsed | public/inject.js:109-115 | the cooldown fires no earlier than its deadline; it closes the breaker, zeroes the count, clears the timer and restores the invariant |
| Capture.TripHoldsForCooldown | public/inject.js:98-115 | once an error trips a closed breaker at `t`, any further errors leave it open with the deadline `t + 30000`, so it can close only by the cooldown, at `t + 30000` or later |
| Capture.ErrorsWithinWindow | public/inject.js:91-101 | errors reported within one window add up exactly, keep the window start, and leave the breaker open iff it was open or the total reached the threshold |
| Capture.ThresholdTrips | public/inject.js:98-99 | ten errors within one window open a new breaker, and fewer keep it closed |
| Capture.InitialLimiter | public/inject.js:124-127 | a new limiter has empty counts and total 0 and satisfies the limiter invariant |
| Capture.UrlKey | public/inject.js:144 | the per-URL key is the URL's prefix that ends just before its first `?` (the whole URL when it has none), and "unknown" for a missing URL |
| Capture.Windowed | public/inject.js:133-137 | counts, total and window start reset only when more than 1000 ms have passed since the window start |
| Capture.ShouldAllow | public/inject.js:129-156 | with the breaker open: false, nothing changes. Otherwise, after the window check, a string URL is admitted iff total < 50 and the key's count < 5; an admission adds one to the total and to that key only. A non-string URL, whose key derivation throws, is admitted iff total < 50 and adds one to the total only. A rejection changes no counter. The invariant is kept |
| Capture.GlobalCap | public/inject.js:139-155 | over any run of calls within one window, the total grows by exactly the number admitted and never exceeds 50 |
| Capture.PerKeyCap | public/inject.js:143-149 | over any run of calls within one window, each key's count grows by exactly its admissions and never exceeds 5 |
| Capture.BurstOfOneUrl | public/inject.js:143-149 | a burst to one URL is admitted exactly up to that key's remaining per-key budget |
| Capture.TenCallsFiveAdmitted | public/inject.js:11 | ten calls to one URL in a fresh window get exactly five admissions |
| Capture.Enqueue | public/inject.js:169-172 | the new message is last; below capacity it is appended; at capacity the oldest is dropped and the rest keep their order; the queue is the last 100 of old queue plus message |
| Capture.Package | public/inject.js:196-209 | an empty batch posts nothing; one message is posted bare with the source tag; more are posted as one tagged batch |
| Capture.PackageRoundTrip | public/inject.js:198-209 | the posted envelope carries exactly the drained batch, in order |
| Capture.Flush | public/inject.js:192-210 | `lastFlush` becomes `now`; exactly the first min(10, length) messages leave the queue and the remainder is unchanged; exactly one envelope (`Package` of the drained messages) is posted when any were drained, and none otherwise; the pending timer is untouched |
| Capture.FlushDelivers | public/inject.js:195-209 | what a flush posts is exactly the drained front of the queue |
| Capture.ScheduleFlush | public/inject.js:176-190 | with a timer pending nothing happens; otherwise a flush runs at once when 100 ms have passed since the last one, else one timer is armed for the rest of the interval |
| Capture.FlushTimerFires | public/inject.js:185-188 | the timer fires no earlier than its deadline; it is cleared and then the queue flushes |
| Capture.Add | public/inject.js:166-174 | with the breaker open nothing changes; otherwise the message is enqueued and a flush scheduled |
| Capture.QueueBounded | public/inject.js:169-172 | adding and flushing keep the queue within 100 entries |
| Capture.AddsCoalesce | public/inject.js:176-188 | two messages added within one interval share one timer, due 100 ms after the last flush, and nothing is posted before it fires |
| Capture.FlushesDeliverInOrder | public/inject.js:192-210 | k flushes post exactly the first min(length, 10k) queued messages in FIFO order and keep the rest queued in order |
| Capture.ShouldLog | public/inject.js:262-270 | a level is admitted iff 50 ms have passed since its last admission (0 when never); only an admission records `now` |
| Capture.ThrottleSpacing | public/inject.js:262-270 | after an admission at t, no call of that level is admitted before t + 50, whatever other levels do in between |
| Capture.ScanWhitelist | public/inject.js:245-247 | the allow-list loop stops iff some pattern's test does not miss |
| Capture.ScanBlacklist | public/inject.js:248-250 | the deny-list verdict is a miss iff every pattern misses; a hit implies some pattern hit; without throws, a hit iff some pattern hits |
| Capture.Decide | public/inject.js:242-255 | empty URL: no capture; an allow-list hit: capture, whatever the deny list says; no capture only on a deny-list hit; no deny-list hit: capture |
| Capture.DecideWithoutFaults | public/inject.js:242-255 | with tests that never throw: capture iff the URL is non-empty and matches an allow pattern or no deny pattern |
| Capture.FaultFailsOpen | public/inject.js:252-254 | a test that throws during either scan makes the filter capture |
| Capture.ShouldCaptureIff | public/inject.js:215-255 | the filter with the script's own pattern lists, as an iff over the pattern semantics |
| Capture.SafeStringify | public/inject.js:62-64 | text over the limit becomes exactly its first `maxLength` characters plus `...[Truncated]`; other text and `undefined` pass unchanged; a throw gives `[Stringify Error]` |
| Capture.SafeStringifyBounded | public/inject.js:62 | output is at most the limit plus the marker, reaches that length iff the text was too long, and keeps the text's leading part |
| Capture.ShouldIgnore | public/inject.js:68-76 | ignored iff the text is empty or contains one of the five markers |
| Capture.IgnoreSurvivesExtension | public/inject.js:68-76 | text around ignored text is still ignored |
| Capture.ReadWithinBudget | public/inject.js:441-461 | without read faults the reader keeps all bytes in order when they fit 100 KB, and otherwise exactly the first 100 KB |
| Capture.BodyText | public/inject.js:446-461 | a complete read is the decoded bytes, and a truncated one is followed by the 100 KB truncation notice |
| CaptureRuntime.CaptureContext.constructor | public/inject.js:86-164 | the object starts with a closed breaker, a fresh limiter window, an empty queue with `lastFlush` 0, and no throttle entries |
| CaptureRuntime.CaptureContext.CanProceed | public/inject.js:118-120 | true iff the breaker is closed |
| CaptureRuntime.CaptureContext.Open | public/inject.js:103-116 | the breaker fields become `OpenBreaker` of their old values; nothing else changes |
| CaptureRuntime.CaptureContext.RecordError | public/inject.js:91-101 | the breaker fields become `RecordError` of their old values; nothing else changes; the object invariant holds |
| CaptureRuntime.CaptureContext.CooldownFires | public/inject.js:109-115 | runs only at or after the cooldown deadline; the breaker fields become `CooldownElapsed` of their old values |
| CaptureRuntime.CaptureContext.ShouldAllow | public/inject.js:129-156 | the limiter fields and the answer are `ShouldAllow` of the old fields and the breaker flag, including the swallowed key-derivation fault; breaker and queue unchanged |
| CaptureRuntime.CaptureContext.Flush | public/inject.js:192-210 | the queue fields become `Flush` of their old values |
| CaptureRuntime.CaptureContext.ScheduleFlush | public/inject.js:176-190 | the queue fields become `ScheduleFlush` of their old values |
| CaptureRuntime.CaptureContext.FlushTimerFires | public/inject.js:185-188 | runs only at or after the flush deadline; the queue fields become `FlushTimerFires` of their old values; no timer is left pending |
| CaptureRuntime.CaptureContext.Add | public/inject.js:166-174 | the queue fields become `Add` of their old values and the breaker flag; the queue stays within 100 |
| CaptureRuntime.CaptureContext.ShouldLog | public/inject.js:262-270 | the throttle table and the answer are `ShouldLog` of the old table |
| CaptureRuntime.CaptureResponseBody | public/inject.js:401-466 | non-text content: skipped; declared length over 100 KB: too large; failed clone: clone failed; no body: no body. Otherwise the chunk loop yields exactly `ReadStream` of the stream with a 100 KB budget |
| Locator.StripPrefix | public/locator-inject.js:197-200 | removes a leading literal prefix once, and changes nothing when it is absent |
| Locator.StripWebpackHost | public/locator-inject.js:196 | removes `webpack://` and the host up to the next `/`: the removed host holds no `/`, and the rest is empty or starts with `/`; other names are unchanged |
| Locator.ResolveFilePath | public/locator-inject.js:190-203 | null iff the name is falsy; otherwise the three strips applied once each, in order (webpack host, `webpack-internal:///`, `./`); the result is a suffix of the name; a name with none of the three prefixes is unchanged |
| Locator.ResolveWebpackSource | public/locator-inject.js:190-203 | for every `webpack://<host>/<path>` name with a slash-free host, the result is exactly `/<path>` |
| Locator.ResolveInternalThenDot | public/locator-inject.js:197-200 | `webpack-internal:///` is stripped before `./`, so both go |
| Locator.ResolveDotBeforeWebpack | public/locator-inject.js:196-200 | each prefix is tried once in fixed order: `./webpack://…` loses only the `./` |
| Locator.IdeNamed | public/locator-inject.js:219 | an editor name not in the table selects the vscode scheme |
| Locator.GenerateIdeUrl | public/locator-inject.js:206-221 | null for a name-only source, a falsy file name, or an empty resolved path; otherwise the chosen editor's link with the resolved path, the line, and the column or 0 |
| Locator.VscodeLinkShape | public/locator-inject.js:11 | a vscode link is `vscode://file/`, then the resolved path, then `:line:0` when the column is missing |
| Locator.GetDisplayName | public/locator-inject.js:49-56 | `Unknown` without a fiber or type (including an empty tag); a tag name as is; else `displayName`, then `name`, then `Anonymous`; never empty |
| Locator.FirstOnWalkIsFirst | public/locator-inject.js:70-104 | a walk search returns the first fiber on the walk that passes, or reports that none does |
| Locator.SourceFromFirstPass | public/locator-inject.js:70-86 | when some component on the `return`/`_debugOwner` walk has `_debugSource`, the result is the first such one's position, with the column defaulting to 0 |
| Locator.SourceFromFallback | public/locator-inject.js:88-106 | otherwise the result is name-only (`isRSC`, no position) for the first usefully named component on the `return` walk, or null when there is none |
| Locator.GetSourceFromFiber | public/locator-inject.js:67-107 | the two loops compute exactly `SourceFromFiber` |
| Locator.Throttled.constructor | public/locator-inject.js:261-262 | a throttled function starts with `lastCall` 0 and no runs |
| Locator.Throttled.Invoke | public/locator-inject.js:263-269 | the wrapped function runs iff `now - lastCall >= delay`; only a run updates `lastCall`; recorded runs stay at least `delay` apart |
| Locator.LocatorState.constructor | public/locator-inject.js:3-7 | inactive, enabled, vscode |
| Locator.LocatorState.HandleKeyDown | public/locator-inject.js:333-339 | becomes active iff it was active or Alt is down while enabled; settings unchanged |
| Locator.LocatorState.HandleKeyUp | public/locator-inject.js:341-347 | stays active iff it was active and Alt is still down |
| Locator.LocatorState.OnWindowMessage | public/locator-inject.js:369-385 | only a settings message from the page itself counts. The editor becomes `ide` or `vscode`, and the locator is enabled unless `enabled` is false. Disabling deactivates; other messages change nothing |
| Background.ShouldIgnoreUrl | public/background.js:16-24 | ignored iff the URL is falsy or starts with one of the five prefixes |
| Background.JoinContainsPart | public/background.js:169 | text contained in one payload part is contained in the space-joined payload |
| Background.NoiseFromAnyPart | public/background.js:169-170 | one part mentioning `chrome-extension://` makes the whole message dropped |
| Background.ResponseText | public/background.js:97-102 | no response: null body; a plain response: its body as is |
| Background.NetworkRecordOf | public/background.js:104-112 | the stored record takes URL, method, payload and timestamp from the request, and a missing or zero status becomes 0 |
| Background.Recorded | public/background.js:63-76 | an entry is recorded iff the URL is not ignored and the type is XHR or Fetch, with no status yet and a falsy post body stored as null |
| Background.WithoutStale | public/background.js:181-189 | exactly the entries not older than 60000 ms remain, unchanged |
| Background.TabKeyMissesDottedIds | public/background.js:125-128 | deleting the tab id's text removes no request whose id contains a `.` |
| Background.BroadcastTo | public/background.js:27-31 | one delivery per connection, in key order, each to that connection's port |
| Background.FirstKeyFor | public/background.js:156-162 | finds the first key from a position whose port matches, or reports that none does |
| Background.RemoveKeyKeepsMatch | public/background.js:159 | deleting one key keeps the key list duplicate-free and equal to the table's keys |
| Base.PushShiftKeepsLatest | public/background.js:114-115 | push, then shift when over capacity, keeps exactly the last `cap` entries |
| Background.BackgroundState.constructor | public/background.js:1-13 | everything starts empty |
| Background.BackgroundState.Broadcast | public/background.js:27-31 | one message per connected port is appended to the outbox; nothing else changes |
| Background.BackgroundState.AttachDebugger | public/background.js:34-47 | an attach call is issued iff the tab is not already marked as debugged |
| Background.BackgroundState.AttachCompleted | public/background.js:37-46 | a successful attach marks the tab; a failed one changes nothing but the in-flight list |
| Background.BackgroundState.DetachDebugger | public/background.js:50-56 | a detach call is issued iff the tab is marked as debugged |
| Background.BackgroundState.DetachCompleted | public/background.js:53-55 | a completed detach unmarks the tab |
| Background.BackgroundState.OnDebuggerEvent | public/background.js:59-122 | a request start records an entry only as `Recorded` says; a response for a known id records status and MIME type; a finished load of a known id starts one body fetch with a snapshot of the entry; unknown ids and other events change nothing; invariant kept |
| Background.BackgroundState.BodyArrived | public/background.js:96-119 | the request joins the 10-entry history as the last 10 of old history plus it, is broadcast, and leaves the pending table; the invariant (no ignored URL stored) is kept |
| Background.BackgroundState.TabRemoved | public/background.js:125-128 | the tab is detached and only the pending key spelled like the tab id is deleted |
| Background.BackgroundState.OnPortMessage | public/background.js:132-151 | `init` maps the tab id (or the port name) to the port and attaches to a real tab; `attachDebugger` with a tab id attaches; `getAll` replies to that port with both histories |
| Background.BackgroundState.OnDisconnect | public/background.js:154-163 | only the first key mapped to the port is removed; every other connection stays |
| Background.BackgroundState.OnRuntimeMessage | public/background.js:167-178 | a console message whose joined payload lacks `chrome-extension://` becomes the last of at most 10 stored logs and is broadcast; anything else changes nothing |
| Background.BackgroundState.CleanupStale | public/background.js:181-189 | the pending table becomes exactly its entries not older than 60000 ms |
| Panel.Receive | src/App.jsx:33-42 | console: logs become the trailing min(n+1, 100) of old logs plus the message, ending with it, requests untouched; network: the same for requests; allData: both lists replaced (missing as empty); other types: no change |
| Panel.ReceiveAllKeepsLatestLogs | src/App.jsx:34-35 | without `allData`, the logs after any message series are the last 100 of the old logs plus every console message received |
| Panel.ReceiveAllKeepsLatestRequests | src/App.jsx:36-37 | the same for requests and network messages |
| Base.LastNOfLastN | src/App.jsx:35 | trimming to the last n before appending does not change the last n after appending |
| FilterFlags.Toggle | src/components/ConsoleTab.jsx:43-45 | exactly the toggled key flips (an absent key turns on) and all other keys keep their values |
| FilterFlags.ToggleTwice | src/components/NetworkTab.jsx:32-34 | toggling a listed key twice restores the filters |
| ConsoleTab.FilteredLogs | src/components/ConsoleTab.jsx:48-50 | at most 5 logs, each with a level the filter object shows (an own key that is on, or an inherited `Object.prototype` name), forming the order-preserving tail of the filtered logs, with as many as there are shown logs up to 5 |
| ConsoleTab.InitiallyOnlyLog | src/components/ConsoleTab.jsx:36-50 | with the initial filters a level is shown iff it is `log` or names an inherited property such as `constructor`; every other level, and a missing one, is hidden |
| ConsoleTab.ToggleFlipsOneLevel | src/components/ConsoleTab.jsx:43-50 | toggling a listed level flips whether that level is shown and leaves every other level, inherited names included, as it was |
| NetworkTab.GetStatusClass | src/components/NetworkTab.jsx:36-41 | `''` iff the status is falsy; `success` iff 200-299; `error` iff at least 400; `warning` iff another non-zero status |
| NetworkTab.FilteredRequests | src/components/NetworkTab.jsx:44-52 | a request is kept iff its lowercased method (default GET) is not explicitly switched off; every kept request comes from the input; the count kept equals the number of passing requests |
| NetworkTab.FilteredRequestsConcat | src/components/NetworkTab.jsx:44-52 | the filter works piecewise over concatenation, so the kept requests keep their order and multiplicity |
| NetworkTab.RecentRequests | src/components/NetworkTab.jsx:55 | exactly the last min(n, 5) of the n filtered requests, in order |
| NetworkTab.InitialFiltersHideNothing | src/components/NetworkTab.jsx:21-26 | with the initial filters every request is kept |
| NetworkTab.ToggleOffHidesOneMethod | src/components/NetworkTab.jsx:32-52 | switching one method off hides exactly that method's requests among those shown |
| StashTab.FormatContent | src/components/StashTab.jsx:61-66 | up to 200 characters unchanged; longer content becomes its first 200 characters plus `...`, 203 in all |
| StashTab.DeleteItem | src/components/StashTab.jsx:50-54 | every item with the id goes and every other item stays |
| StashTab.DeleteKeepsOrder | src/components/StashTab.jsx:51 | deletion works piecewise, so the remaining items keep their order |
| StashTab.ClearAll | src/components/StashTab.jsx:56-59 | the history holds no item |
| StashTab.DeleteAllRemoves | src/components/StashTab.jsx:50-51 | after deleting a series of ids, no remaining item has one of them |
| StashTab.DeletingEveryIdClears | src/components/StashTab.jsx:50-59 | deleting every item's id leaves exactly what `clearAll` leaves: nothing |

## Left out

- Global rebinding: the `window.fetch`, `XMLHttpRequest` and `console` wrappers (public/inject.js:274-363, 469-584), `safeWrap`, and `__taillogRestore`. They only route calls into the modelled policies.
- `JSON.stringify` traversal, cycle detection and replacer: object identity is not modelled. `SafeStringify` takes what `JSON.stringify` produced.
- Decoding and number formatting are passed in as functions: `TextDecoder` (the `decode` argument of `Capture.BodyText`), `formatSize` and `atob`. `parseInt` of `content-length` is the `declaredLength` field, absent when the header is missing or not numeric.
- Capture.Matches: the URL regular expressions are read as suffix, substring and `/v<digits>/` checks on an ASCII-lowercased URL. Non-ASCII case folding and line-terminator behaviour of `$` and `.*` are not modelled.
- `safePostMessage` is assumed to succeed, so its `recordError` on a throw is not modelled. `CaptureContext.RecordError` can be called for it directly.
- Each operation reads the clock once. The source calls `Date.now()` again in nested calls (for example `flush` inside `scheduleFlush`), which can differ by the time the call takes.
- Fetch responses are captured in a callback scheduled with `requestIdleCallback`, or `setTimeout(fn, 0)` where that is missing (public/inject.js:366-395). That deferral is not modelled: `CaptureResponseBody` is one step and its result is queued with `Add`.
- Capture.SafeStringify: lengths and the cut are counted in Unicode scalar values. JavaScript's `length` and `slice` count UTF-16 code units, so text with characters outside the Basic Multilingual Plane is cut at a different place, and a surrogate pair may be split. A Dafny string cannot hold half a pair.
- StashTab.FormatContent: the 200-character preview has the same gap. It counts Unicode scalar values, not UTF-16 code units.
- NetworkTab.MethodKey: `toLowerCase` is modelled for ASCII letters only. Other letters in a method name are kept as they are.
- Background.BackgroundState.OnPortMessage: only the text form of a message's `tabId` is modelled. A numeric tab id 0 would be falsy in JavaScript but is truthy here.
- Background.BackgroundState.OnDisconnect: keys are enumerated in insertion order. JavaScript enumerates integer-like keys (tab ids) first, in ascending order, which can change which key is "first" when one port is registered under several keys.
- Background.BackgroundState.BodyArrived: it uses the snapshot of the pending entry taken when loading finished. A `responseReceived` for the same id arriving between that moment and the callback would, in the source, still show through the shared object.
- Background.Pending: the ISO timestamp of an entry is kept as milliseconds, so the `new Date(...)` round trip of the cleanup is the identity.
- ConsoleTab.LevelKey: a console level is text, or missing (the key `undefined`). A non-string level, which `filters[l.level]` would turn into its string form, is not modelled.
- FilterFlags.Toggle: an absent key turns on, which is `!undefined`. For an absent inherited name the source would store `false`. The tabs only toggle the filter object's own keys (`Object.keys(filters)`), so that case never arises.
- Locator.IdeNamed: a name of an inherited object property (such as `constructor`) would select that property in the source; here every unknown name selects vscode.
- Locator.GetDisplayName: a fiber type that is a falsy primitive other than the empty string (0, false) is not modelled; other primitive types are named `Anonymous`.
- DOM and rendering: the overlay, label, cursor, notifications, `elementFromPoint`, `getFiberFromElement`, the click handler that opens the link, and all JSX markup.
- I/O plumbing: `chrome.storage`, `public/content.js` and `src/components/LocatorTab.jsx`. The `chrome.debugger` and `chrome.runtime` calls appear only as in-flight lists and the outbox. `Network.enable` is not modelled.
