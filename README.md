# DataLayer Visualizer: event relay and correlation, in Dafny

This project models the stateful core of the DataLayer Visualizer Chrome
extension, a DevTools panel for Google Tag Manager / GA4 `dataLayer`
pushes. It covers three parts of the extension.

- **The page-side interceptor** (`injected.js`) watches `window.dataLayer`. It
  reports each pushed event at most once per 100 ms window per wrapper,
  unless reporting raises, and drops repeats. A repeat is a push whose
  fingerprint (the JSON text plus the 100 ms window) is already in a capped
  set of recent fingerprints. A report that raises (from the GA4 probe or
  from `postMessage`) posts nothing. Each reported event gets the next
  counter value as its index. A report that raises still uses up one value,
  so the posted indices are consecutive only while nothing raises
  (`Dedup.SendAllGapless`). The report also carries the GTM preview state
  and the first GA4 measurement id found in the dataLayer.
  Modules `EventFingerprint`, `Probes` and `Dedup` state this as functions.
  The `Interceptor.Page` class performs it in place: the fingerprint set, the
  counter, the injection sentinel, the push wrappers and the setter trap.
- **The background worker** (`background.js`) keeps a per-tab list of events
  (append, get, clear, delete on tab close). It also keeps a table of tracked
  analytics requests keyed by request id, whose status moves from pending to
  completed or failed. A substring filter (`isAnalyticsRequest`) and a
  substring classifier (`getRequestType`) decide which requests are tracked
  and under which type. Modules `Classifier` and `Relay` cover it, with the
  `Relay.BackgroundWorker` class holding both maps.
- **The panel's state** (`panel.js`, rendering excluded) holds an
  append-only event list with navigation markers. It keeps a JavaScript `Map`
  from event position to the request attributed to that position, a
  selection, a persist switch and a first-wins GA4 id. Module `Panel` and its
  `PanelState` class cover it.

The page's surroundings are explicit inputs, passed as a `Window.PageEnv`
value:
- the clock, `Date.now()`: each `sendDataLayerEvent` call gets its own
  `Window.CallTime`, one reading for the fingerprint and one for the
  timestamp, so a run of calls takes one reading pair per call;
- `JSON.stringify`, as a function returning `None` where it throws;
- whether `window.postMessage` can structured-clone a pushed value
  (`cloneable`), false for values holding functions or DOM nodes;
- `window.location.href`;
- `document.cookie`;
- the gtag and Tag Assistant globals;
- `window.google_tag_manager`.

JavaScript values are the `Js.JsValue` datatype. The `push` that the first
interceptor wrapper captures is an uninterpreted `PushFunction` stored in the
array (`DataLayerArray.basePush`): `Array.prototype.push`, or whatever
gtm.js or gtag.js installed before the script ran. `NativePush` is the
built-in one. A `Set` with insertion order
is a duplicate-free sequence, and the panel's `Map` is a sequence of key/value
pairs with distinct keys.

Three points of the code are modelled as written.
- `detectGA4PropertyId` calls `JSON.stringify` outside any `try`
  (injected.js:117). On a page with gtag, an unserialisable dataLayer item
  therefore raises out of `sendDataLayerEvent`. That happens after the
  fingerprint was stored and the counter advanced (`Dedup.Send` reports
  `threw`), and it escapes the push wrapper before the captured push runs
  (`Interceptor.Page.Push` returns `Raised` and leaves the array unchanged).
- `window.postMessage` is not inside a `try` either (injected.js:61-64). A
  payload it cannot clone, such as a push carrying an `eventCallback`
  function, raises a `DataCloneError` in the same place, with the same
  effect: stored fingerprint, advanced counter, nothing posted, and the
  captured push skipped (`Dedup.UncloneableRaises`). When the probe
  does not raise and every argument can be cloned, the wrapped push reaches
  the captured push (`Dedup.SendLayersNeverRaises`); with the built-in push
  it then appends exactly the arguments. A raise needs a fingerprint not yet
  stored (`Dedup.SendOutcome`): a repeat returns before the probe and before
  `postMessage`, so it never raises and reaches the captured push.
- Every assignment of an array through the setter trap wraps that array's
  current `push` again. `DataLayerArray.wrapDepth` counts the wrappers, and a
  push reports its arguments once per wrapper. Deduplication absorbs the
  repeats when both wrappers' fingerprint readings fall in the same 100 ms
  window (`Dedup.DoubleWrapPostsOnce`); across a window boundary the event
  is posted once per wrapper (`Dedup.DoubleWrapAcrossWindowsPostsTwice`).

In several places the code does less than one might expect of the
extension; the model follows the code:
- `getRequestType` is plain substring matching in a fixed order, with no
  exact-host precedence. A URL on any host whose text contains
  `google-analytics.com/g/collect` is classified GA4.
- background.js deletes a tab's events only on `CLEAR_TAB_DATA` and on tab
  removal. Navigation does not delete them.
- There are no duplex panel connections and no batch replay. The panel
  pulls a tab's events once with `GET_TAB_DATA`.
- A second completion or error for a request overwrites its status; nothing
  guards against it.
- The interceptor does not create `window.dataLayer`. When there is none, it
  only installs the setter trap.
- The panel's refresh message carries `action`, not `type`. The background
  listener therefore does not recognise it (`Unrecognised` in the model) and
  sends no response.

## Model

| member | source | states |
|---|---|---|
| Text.Split | injected.js:80 | `cookie.split(';')` yields at least one piece and no piece contains the separator |
| Text.JoinSplit | injected.js:80 | joining the pieces of a split with the separator gives back the original string |
| Text.LeadingSpace | injected.js:82 | the length of the leading run of ECMAScript whitespace and line terminators: all of it is whitespace and the next character is not |
| Text.TrailingSpaceStart | injected.js:82 | where the trailing run of whitespace begins: everything from there is whitespace and the character before is not |
| Text.Trim | injected.js:82 | `trim()`: the result is the input with exactly its leading and trailing whitespace removed, so it neither starts nor ends with whitespace; it is empty exactly when the input is all whitespace |
| Text.Sort | injected.js:27 | `.sort()` on the key list yields a sorted permutation of it |
| Text.SortIgnoresOrder | injected.js:27 | two key lists with the same elements sort to the same list |
| Text.NatToStringRoundTrip | injected.js:22 | the decimal text of the time window reads back as the same number |
| Text.NatToStringInjective | injected.js:22 | different time windows print differently |
| Text.ContainsTransitive | background.js:77-78 | a URL containing a pattern contains every substring of that pattern |
| Js.FalsyValues | injected.js:113-115 | the falsy values are exactly `undefined`, `null`, `false`, `0` and `""`; every object is truthy |
| Js.Get | injected.js:115 | reading a property of a value that is not an object gives `undefined` |
| Js.GetFirstProperty | injected.js:115 | on an object, a property read gives the value of the first own property with that name |
| Js.GetMissingProperty | injected.js:115 | on an object without a property of that name, a property read gives `undefined` |
| Js.OwnKeys | injected.js:89 | definition: `Object.keys`: an object's own keys in property order; no keys for values other than objects and strings |
| EventFingerprint.Fingerprint | injected.js:18-31 | `generateEventFingerprint`: the payload text (or the sorted-keys fallback), `_`, and the 100 ms window; its properties are stated by `FingerprintShape` and `FingerprintsCollideIff` |
| EventFingerprint.FallbackContent | injected.js:27 | when serialisation throws: empty for a falsy event and for a primitive without keys, the key itself for a one-key object |
| EventFingerprint.FingerprintShape | injected.js:18-22 | a fingerprint is the payload text, `_`, and a run of decimal digits that reads back as the 100 ms window of the reading |
| EventFingerprint.FingerprintsCollideIff | injected.js:18-31 | two pushes get the same fingerprint exactly when their payload texts and their 100 ms windows agree |
| EventFingerprint.DifferentWindowsDifferentFingerprints | injected.js:21-22 | pushes in different 100 ms windows never share a fingerprint |
| EventFingerprint.SameWindowSameFingerprint | injected.js:20-22 | equal serialisations in the same window share a fingerprint |
| EventFingerprint.FallbackIgnoresKeyOrder | injected.js:27-29 | when serialisation throws, only the collection of top-level keys matters, not their order |
| Probes.FirstMeasurementId | injected.js:118-120 | a match is `G-` followed by a maximal run of `[A-Z0-9]` at the leftmost position where one starts; no match exactly when no position starts one |
| Probes.ScanItems | injected.js:112-124 | items with truthy `gtm.start` and non-objects are skipped; the first searched item holding an id decides; null exactly when no searched item holds one; a raise comes from a searched item that cannot be serialised |
| Probes.DetectGA4PropertyId | injected.js:105-129 | null without gtag or its TCF flag, or without a dataLayer; any id returned is a measurement id; a raise needs an unserialisable item |
| Probes.SerialisableNeverThrows | injected.js:117 | when every searched item serialises, the probe does not raise |
| Probes.AnyPreviewCookie | injected.js:80-85 | true exactly when some trimmed cookie piece starts with `__TAG_ASSISTANT` |
| Probes.AnyContainerInPreview | injected.js:92-97 | true exactly when some container has a truthy `dataLayer.gtmDom` |
| Probes.DetectGtmPreview | injected.js:68-102 | active exactly when the Tag Assistant API is present, a preview cookie is set or a container is in preview; the container ids are the keys of `google_tag_manager` when present, else empty |
| Dedup.Initial | injected.js:12-15 | the script starts with no fingerprints, index 0 and nothing posted |
| Dedup.Without | injected.js:48 | `seenEvents.delete(e)`: exactly `e` leaves the set; deleting an absent entry changes nothing; in a duplicate-free set the one entry holding `e` is cut out and the others keep their order |
| Dedup.WithoutOldest | injected.js:47-48 | deleting the oldest entry of a duplicate-free insertion-ordered set drops exactly the first element |
| Dedup.Remember | injected.js:43-50 | the new fingerprint is kept as the newest entry, the set stays within 1000 and duplicate-free, and on overflow exactly the 500 oldest are removed in insertion order |
| Dedup.Send | injected.js:34-65 | one call keeps the fingerprint set duplicate-free and within 1000 entries |
| Dedup.SendOutcome | injected.js:34-65 | a seen fingerprint changes nothing and posts nothing; a new one is remembered and the counter rises by 1; a posted event carries the old counter value, the payload, the timestamp reading, the URL and both probes; a raise happens exactly for a new fingerprint when the GA4 probe raises or `postMessage` cannot clone the payload, and then nothing is posted |
| Dedup.UncloneableRaises | injected.js:61-64 | a new payload that `postMessage` cannot clone raises after its fingerprint is stored and the counter advanced, posting nothing |
| Dedup.SendAll | injected.js:134-136 | reporting a list keeps the fingerprint set valid, never lowers the counter and only extends what was posted |
| Dedup.SendLayers | injected.js:140-146 | the same for a push through any number of stacked wrappers |
| Dedup.SendAllNeverRaises | injected.js:142-144 | when the GA4 probe does not raise and every event can be cloned, reporting a list never raises |
| Dedup.SendLayersNeverRaises | injected.js:157-162 | under the same conditions no wrapper layer raises |
| Dedup.SendAllGapless | injected.js:53 | without a raise, posted indices stay 0, 1, 2, … with the counter next |
| Dedup.SendLayersGapless | injected.js:140-146 | the same through stacked wrappers |
| Dedup.RepeatDropped | injected.js:39-42 | a second push of the same payload whose fingerprint reading falls in the same 100 ms window is dropped |
| Dedup.DoubleWrapPostsOnce | injected.js:153-163 | a single-argument push through two wrappers whose fingerprint readings fall in the same window posts at most one event |
| Dedup.DoubleWrapAcrossWindowsPostsTwice | injected.js:153-163 | when the two wrappers' readings straddle a window boundary, a new cloneable payload with a non-raising probe is posted twice |
| Dedup.SendFresh | injected.js:43-64 | an unseen fingerprint with a probe that does not raise and a cloneable payload posts exactly its event with the current index |
| Dedup.FreshEventsAllPosted | injected.js:142-144 | cloneable pushes with distinct unseen fingerprints and a non-raising probe are all posted in argument order, with their payloads and consecutive indices |
| Interceptor.NativePushOutcome | injected.js:145 | with the built-in push, a non-raising probe and cloneable arguments, no wrapper raises and the push appends the arguments and returns the new length |
| Interceptor.DataLayerArray.constructor | injected.js:132 | a page array starts with its items, no wrapper and the push it already had |
| Interceptor.Page.constructor | injected.js:10-15 | a fresh page has no sentinel, no trap and the initial tracker |
| Interceptor.Page.Remember | injected.js:43-50 | the add-then-evict loop leaves the set equal to `Dedup.Remember` of the old set |
| Interceptor.Page.SendDataLayerEvent | injected.js:34-65 | the new fingerprint set, counter and posted messages, and whether it raised, are those of `Dedup.Send` for this call's clock readings |
| Interceptor.Page.SendEach | injected.js:134-136 | the `forEach` over events ends in the state of `Dedup.SendAll`, stopping at a raise |
| Interceptor.Page.Activate | injected.js:6-168 | a second activation changes nothing; otherwise an existing array has its items reported and gains one wrapper unless reporting raised, and without an array the setter trap is installed |
| Interceptor.Page.ReportLayers | injected.js:157-161 | the wrappers' reports, outermost first, end in the state of `Dedup.SendLayers` and raise exactly when it does |
| Interceptor.Page.Push | injected.js:140-146 | every wrapper reports all arguments (`Dedup.SendLayers`); on a raise the array is unchanged and the caller gets the exception; otherwise the array and the result are those of the captured push; with the built-in push, a non-raising probe and cloneable arguments the array gains the arguments and the new length is returned |
| Interceptor.Page.Assign | injected.js:153-165 | the assigned array becomes `window.dataLayer` with its items intact and gains one wrapper exactly when the trap is installed |
| Classifier.IsAnalyticsRequest | background.js:73-79 | every tracked URL names `google-analytics.com`, `analytics.google.com` or `googletagmanager.com`, and every URL naming `analytics.google.com` is tracked |
| Classifier.CollectPathsOnGaHost | background.js:74-75 | both collect paths the filter accepts contain `google-analytics.com` |
| Classifier.GetRequestType | background.js:81-87 | `Unknown` exactly when the URL contains none of the four patterns |
| Classifier.ScriptPathsOnGtmHost | background.js:77-84 | both script paths the filter accepts contain the tag manager host the classifier tests |
| Classifier.FilteredNeverUnknown | background.js:73-87 | no URL the filter accepts is classified `Unknown` |
| Classifier.GtmBeforeAnalyticsHost | background.js:81-87 | first match wins: a URL naming the tag manager host and neither collect path is GTM, never GA, even when it also names `analytics.google.com` |
| Relay.ResolveTabId | background.js:93 | definition: a present, non-zero sender tab id wins; otherwise the message's tab id |
| Relay.History | background.js:103 | definition: `tabData.get(tabId) \|\| []`: the stored list of a known tab, else the empty list |
| Relay.Append | background.js:94-97 | the tab's list gains the event at its end (a missing list starts empty); every other tab is untouched |
| Relay.Forget | background.js:106 | the tab's entry is gone and its history is empty; every other tab is untouched |
| Relay.AppendAllInOrder | background.js:94-97 | a run of events for one tab is stored in arrival order after what was there |
| Relay.ForgetThenAppendAll | background.js:104-107 | after a clear or tab removal, a tab's history is exactly the events that arrive afterwards |
| Relay.Track | background.js:14-26 | only an analytics URL creates a record: stored under its id, pending, typed by the classifier (never `Unknown`), without status code or error; other entries unchanged |
| Relay.Complete | background.js:43-47 | an unknown id changes nothing; a known one becomes completed with its status code, the request fields, error, keys and other entries unchanged |
| Relay.Fail | background.js:59-62 | an unknown id changes nothing; a known one becomes failed with its error, the request fields, status code, keys and other entries unchanged |
| Relay.ApplyAllKeepsRecords | background.js:26 | over any sequence of request notifications no key is removed, and every record stays under its own id with a known type |
| Relay.UnknownIdsIgnored | background.js:43-44 | completions and errors for ids never tracked leave the table as it was |
| Relay.BackgroundWorker.constructor | background.js:4-5 | both maps start empty |
| Relay.BackgroundWorker.OnMessage | background.js:90-111 | DATALAYER_EVENT appends and answers success; GET_TAB_DATA answers the tab's history and changes nothing; CLEAR_TAB_DATA forgets the tab and answers success; other messages change nothing and get no answer |
| Relay.BackgroundWorker.OnTabRemoved | background.js:114-116 | the closed tab's events are forgotten |
| Relay.BackgroundWorker.OnBeforeRequest | background.js:8-39 | the table becomes `Track` of the old one, and a notice is broadcast exactly for analytics URLs |
| Relay.BackgroundWorker.OnCompleted | background.js:41-55 | the table becomes `Complete` of the old one, and a notice is broadcast exactly for known ids |
| Relay.BackgroundWorker.OnErrorOccurred | background.js:57-71 | the table becomes `Fail` of the old one, and a notice is broadcast exactly for known ids |
| Panel.CapturedAll | panel.js:205-207 | definition: one captured entry per event, in order |
| Panel.IndexOf | panel.js:534 | the first position of a key in map order, or none exactly when the key is absent |
| Panel.IndexOfPrefix | panel.js:522 | inserting a new key last does not move the existing keys |
| Panel.Lookup | panel.js:314 | `map.get` finds a value exactly for present keys |
| Panel.LookupFirstEntry | panel.js:314 | the value found is the record of the first entry with that key |
| Panel.LookupEntry | panel.js:314 | with distinct keys, the value found under an entry's key is that entry's record |
| Panel.MapSet | panel.js:522 | `map.set`: the key maps to the value, every other key's value is unchanged, an existing key keeps its place and a new one goes last |
| Panel.MapSetDistinct | panel.js:522 | `map.set` keeps keys distinct |
| Panel.MapSetAt | panel.js:536 | setting the key of an existing entry replaces that entry in place |
| Panel.FirstWithRequestId | panel.js:534-535 | the first entry in map order whose request has the id, or none when no entry has it |
| Panel.Attributed | panel.js:518-523 | a new request goes to the latest entry's position, overwriting what was there; an existing key keeps its place in map order and a new key goes last; with no entries nothing changes; every other position keeps its request |
| Panel.AttributedWithin | panel.js:518-523 | attributing keeps the keys distinct and each naming a position of the event list |
| Panel.Replaced | panel.js:532-545 | the first entry with the same request id takes the new record; keys, their order and all other entries stay; no match changes nothing |
| Panel.KnownId | panel.js:222-224 | the id after a run of events is the starting one or a truthy id carried by one of the events |
| Panel.KnownIdKept | panel.js:222-224 | once the panel knows a GA4 id, no later event replaces it |
| Panel.KnownIdFirstWins | panel.js:222-224 | without a known id, the panel adopts the id of the first event carrying a truthy one, or keeps what it had when none does |
| Panel.GetEventName | panel.js:307-311 | `Unknown` for falsy data, the string itself for strings, else the first truthy of `event`, `gtm.element`, `0`, falling back to `dataLayer.push`; never falsy |
| Panel.EventKeyNamesThePush | panel.js:310 | a push whose `event` key is a non-empty string is labelled by it |
| Panel.StatusClass | panel.js:317-318 | an empty class exactly for completed, `failed` exactly for failed, `pending` exactly for pending |
| Panel.NetworkIndicator | panel.js:313-321 | no indicator for a position without a request, else the request's status class and type |
| Panel.TruncateUrl | panel.js:820-825 | at most 50 characters; short URLs unchanged; long ones keep their first 47 characters followed by `...` |
| Panel.TruncateIdempotent | panel.js:820-825 | truncating a truncated URL changes nothing |
| Panel.PanelState.constructor | panel.js:6-10 | no events, no requests, no selection, persist on, no GA4 id |
| Panel.PanelState.AddEvent | panel.js:213-232 | the event is appended and earlier entries are unchanged; the GA4 id is adopted only while none is known |
| Panel.PanelState.AddEvents | panel.js:205-207 | the list gains all events in order, and the GA4 id is the first-wins fold over them |
| Panel.PanelState.AddNavigationMarker | panel.js:234-244 | a marker whose index is the list length before the push is appended |
| Panel.PanelState.HandleNetworkRequest | panel.js:518-530 | the request map becomes `Attributed` of the old one for the current list length |
| Panel.PanelState.UpdateNetworkRequest | panel.js:532-545 | the search loop with `break` leaves the map equal to `Replaced` of the old one |
| Panel.PanelState.OnMessage | panel.js:186-196 | DATALAYER_EVENT adds the event; a new request is attributed; a completion or failure replaces by request id; other messages change nothing |
| Panel.PanelState.SelectEvent | panel.js:323-327 | the selection becomes the clicked position |
| Panel.PanelState.ClearAllEvents | panel.js:562-583 | events, requests and selection are emptied, and with an active tab a CLEAR_TAB_DATA for it is sent |
| Panel.PanelState.RefreshDataLayer | panel.js:585-624 | without the refresh icon nothing changes; otherwise the panel is emptied and, with an active tab, an untyped message is sent |
| Panel.PanelState.TogglePersist | panel.js:626-630 | the persist switch flips |
| Panel.PanelState.OnNavigated | panel.js:138-144 | with persist on a navigation marker is appended and nothing else changes; with persist off everything is cleared as by `ClearAllEvents` |

Every class keeps a `Valid()` invariant that its methods preserve:
- `Page`: the fingerprint set is duplicate-free and holds at most 1000 entries.
- `BackgroundWorker`: every stored request is filed under its own id and has a
  type other than `Unknown`.
- `PanelState`: the request map's keys are distinct and each names a position
  of the event list.

## Left out

- DOM rendering and presentation in panel.js: the event list and details, JSON highlighting, toggles, theme, clipboard and the GTM status badge. These draw the state but do not change it.
- The GA4 DebugView button and the settings modal (panel.js:646-700). Both write `ga4PropertyId` and are not modelled. The DebugView button adopts the id of the first event carrying one when none is known (panel.js:647-651); the settings save sets the id to any non-empty trimmed input, replacing a known one (panel.js:694-697). Panel.KnownIdKept and Panel.KnownIdFirstWins therefore describe only the updates made by incoming events.
- The resizable divider, which works in floating-point percentages.
- `chrome.storage` and `localStorage` persistence (`persistEvents`, `loadPersistedEvents`, `loadSettings`), the initial `inspectedWindow.eval` load of the page's dataLayer, and listener registration. Storage and evaluation are I/O outside the model.
- The sending side of `chrome.runtime.sendMessage` and `window.postMessage`, including the `.catch` that swallows delivery failures. Posted and sent messages are returned as values instead (`Page.posted`, `Notice`, `Response`, optional `RuntimeMessage`).
- content.js and devtools.js: plumbing that forwards messages and registers the panel. content.js is not part of this model.
- `Object.defineProperty`'s getter and the `arguments` object. Only their effect is modelled: the rebind in `Page.Assign` and the wrapping in `wrapDepth`.
- Interceptor.Page.Push: models a push on the array currently held by `window.dataLayer`. An old array keeps its wrapper after reassignment, and its push would apply the push it captured to the current `window.dataLayer` (injected.js:145); that case is not modelled.
- Interceptor.Page.Assign: an assigned value that is not an array is modelled as having no dataLayer. A truthy non-array `window.dataLayer` would make the GA4 probe's `for…of` raise; that is not modelled.
- Js.Get: reads own properties only, with no prototype chain and no array `length`. `getEventName`, the GTM preview probe and the `gtm.start` check therefore see own properties only.
- Text.Sort: compares strings by Unicode code points, where JavaScript's default `sort()` compares UTF-16 code units; the two orders differ only for characters above U+FFFF. Js.OwnKeys and Panel.TruncateUrl likewise count code points, not UTF-16 code units, so a string with such characters has a different length and cut point in the source.
- Js.JsValue: numbers are integers. Fractions, `NaN` and infinities are not modelled, so `Number(0)` is the only falsy number and no number has a fractional serialisation.
- Interceptor.Page.Push: a script that assigns a new `push` to the array after the wrap is installed is not modelled; the wrappers stay on top of `basePush`.
- Timestamps, indices and tab ids are unbounded integers. The clock is a non-negative number of milliseconds, so `Math.floor(now / 100)` is plain division.
