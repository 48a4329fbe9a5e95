# font-system in Dafny

A model of the core of font-system, a browser extension that lists the
distinct typography combinations of the page in the active tab and, in
"hover mode", highlights the combination under the mouse.

The model follows the extension's five core files:

- `fonts.dfy` (`Fonts`): the raw computed style of an element, the record
  the extension keeps for it, the *primary family* normalisation shared by
  `scanAllFonts` and `getFontProperties` (text before the first comma, every
  `'` and `"` removed, ECMAScript `trim`), and the `family|weight|size|lineHeight`
  keys.
- `extractor.dfy` (`Extractor`): `scanAllFonts` from functions/api.js (and
  its copy in popup.js). It is a loop over the document's elements in
  document order that fills a seen-key set. It is proved equal to the
  specification function `Extract`, which is described in terms of the
  first-seen positions `FirstSeen`.
- `display.dfy` (`Display`): `displayFonts` and `showError` from
  functions/display.js (and their twins in popup.js).
  - The results area is a structured list: groups, each with a header and
    entries, each entry with a label and optional `data-font-*` metadata.
  - This list is built by the same Map-filling and group-rendering loops as
    the source. It is proved equal to `GroupView`, which is "families in
    ascending order, each with its records in input order".
  - The DOM elements are `Display.Panel`, whose fields the two operations
    update.
- `messages.dfy` (`Messages`): the four message types exchanged between the
  side panel and the content script.
- `observer.dfy` (`HoverObserver`): the content script. It has three
  listener slots, a debounce-timer slot and the messages it sends.
  - `HoverObserver.Observer` holds the closure variables. Each of its
    methods is tied to a step function on `ObserverState`.
  - Traces of page events are `Run`.
- `scan.dfy` (`ScanOutcomes`): what a scan request can run into, and the
  exact messages shown for each failure.
- `session.dfy` (`SidePanel`): the side panel controller of sidepanel.js.
  - `SidePanel.SessionController` holds `hoverModeEnabled`,
    `currentTabIdForHover`, `currentTabId`, the two buttons, a log of the
    browser calls it issues, and the `Panel`.
  - Its methods are the scan request, hover toggling, highlighting, and the
    tab-change resets.
- `popup.dfy` (`Popup`): the popup's scan with its simpler error mapping.
  The popup's copies of `scanAllFonts` (popup.js:51-82), `displayFonts`
  (popup.js:84-119) and `showError` (popup.js:121-125) do the same as the
  originals, without entry metadata. They are modelled by
  `Extractor.ScanAllFonts`, by `Display.Panel.DisplayFonts` with
  `withMetadata` false, and by `Display.Panel.ShowError`.

Browser answers are parameters of the modelled operations: the active tab,
`chrome.runtime.lastError`, the scan result and whether a message or an
injection got through. Commands the side panel sends go to an append-only
log (`SidePanel.Command`). Each callback runs to completion.

Points where the model follows the code rather than a simpler description:

- **Keys.** `scanAllFonts` deduplicates on the *string*
  `fontFamily|fontWeight|fontSize|lineHeight`, not on the 4-tuple (functions/api.js:17).
  - The model does the same (`Fonts.RawKey`).
  - "One record per distinct tuple" is proved only for values without `|`
    in weight, size or line height (`Fonts.RawKeyInjective`).
  - A concrete collision is exhibited (`Fonts.RawKeyCollision` and
    `Extractor.CollidingKeysKeepOneRecord`).
- **Truthiness.** `currentTabIdForHover` is used directly as a condition, so a tab
  id of `0` counts as "no tab" (`SidePanel.TabIsSet`).
- **Empty results.** A scan result that is an empty array is truthy. It is
  displayed as the "No fonts found" placeholder, and hover detection is
  still injected.

## Model

| member | source | states |
|---|---|---|
| Strings.Contains | sidepanel.js:62-65 | `String.prototype.includes`: `ContainsIffOccurrence` states it holds exactly when the pattern occurs at some position |
| Strings.ContainsIffOccurrence | sidepanel.js:62-65 | `includes` holds if and only if the pattern occurs at some index of the string |
| Strings.ContainsPrefixOfPattern | sidepanel.js:62-65 | a string that includes `p + q` includes `p` |
| Strings.Below | functions/display.js:19 | the order standing in for `localeCompare`: `BelowIrreflexive`, `BelowTransitive` and `BelowTotal` state it is a strict total order |
| Strings.BelowIrreflexive | functions/display.js:19 | no family sorts before itself |
| Strings.BelowTransitive | functions/display.js:19 | the order is transitive |
| Strings.BelowTotal | functions/display.js:19 | of two different families, one sorts before the other |
| Fonts.TrimStartSpec | functions/api.js:22 | `trimStart` removes exactly the leading run of ECMAScript whitespace: the result is a suffix, what was cut is whitespace, and the result does not start with whitespace |
| Fonts.TrimEndSpec | functions/api.js:22 | `trimEnd` removes exactly the trailing run of whitespace: the result is a prefix, the cut part is whitespace, and the result does not end with whitespace |
| Fonts.TrimSpec | functions/api.js:22 | `trim` returns a slice `s[i..j]` with only whitespace outside it, and the result neither starts nor ends with whitespace |
| Fonts.TrimNoop | functions/api.js:22 | trimming a string without surrounding whitespace changes nothing |
| Fonts.TrimStart | functions/api.js:22 | the leading half of `trim`: `TrimStartSpec` states it removes exactly the leading whitespace |
| Fonts.TrimEnd | functions/api.js:22 | the trailing half of `trim`: `TrimEndSpec` states it removes exactly the trailing whitespace |
| Fonts.Trim | functions/api.js:22 | `String.prototype.trim` (also content-script.js:17): `TrimSpec` and `TrimNoop` state its properties |
| Fonts.BeforeFirstCommaSpec | functions/api.js:22 | `split(",")[0]` is a prefix of the input without a comma, and it is followed by a comma when shorter than the input |
| Fonts.BeforeFirstCommaNoComma | functions/api.js:22 | a string without commas is its own first segment |
| Fonts.BeforeFirstComma | functions/api.js:22 | `split(",")[0]` (also content-script.js:17): `BeforeFirstCommaSpec` and `BeforeFirstCommaNoComma` state its properties |
| Fonts.RemoveQuotesSpec | functions/api.js:22 | `replace(/['"]/g, "")` keeps exactly the characters that are not quotes |
| Fonts.RemoveQuotesNoQuotes | functions/api.js:22 | removing quotes from a quote-free string changes nothing |
| Fonts.RemoveQuotesAppend | functions/api.js:22 | quote removal distributes over concatenation |
| Fonts.RemoveQuotes | functions/api.js:22 | `replace(/['"]/g, "")` (also content-script.js:17): `RemoveQuotesSpec` with `RemoveQuotesAppend` state its properties |
| Fonts.PrimaryFamilyIsBare | functions/api.js:22 | the primary family contains no `,`, `'` or `"` and has no leading or trailing whitespace |
| Fonts.PrimaryFamilyIdempotent | functions/api.js:22 | normalising a primary family again leaves it unchanged |
| Fonts.PrimaryFamilyOfQuotedList | functions/api.js:22 | a quoted bare name followed by a fallback list normalises to the bare name, as does the bare name itself |
| Fonts.PrimaryFamily | functions/api.js:22 | the primary family of a raw `font-family` value: its properties are stated by `PrimaryFamilyIsBare`, `PrimaryFamilyIdempotent` and `PrimaryFamilyOfQuotedList` |
| Fonts.FontProperties | content-script.js:9-24 | the record built from a raw style (also functions/api.js:22-29): its properties are stated by `FontPropertiesNormalises` |
| Fonts.FontPropertiesNormalises | content-script.js:9-24 | `getFontProperties` (and the record built in functions/api.js:24-29) has the primary family of the raw family, and copies weight, size and line height verbatim |
| Fonts.LastBarOfJoin | functions/api.js:17 | when the tail `y` of a bar-joined string has no bar, the last bar is the one right after `x` |
| Fonts.SplitAtLastBar | functions/api.js:17 | a joined key splits uniquely at its last bar when the tail has none |
| Fonts.RawKeyInjective | functions/api.js:17 | two raw styles have the same dedup key if and only if they are equal, provided weight, size and line height contain no bar character |
| Fonts.RawKeyCollision | functions/api.js:17 | two different raw styles can share a dedup key when a value contains a bar character |
| Fonts.RawKey | functions/api.js:17 | the dedup key of a raw style: `RawKeyInjective` states when it determines the style, `RawKeyCollision` when it does not |
| Fonts.RecordKey | functions/display.js:29 | the `data-font-key` of a record, the same template sidepanel.js:140 builds for a hover report: `RenderedEntry` and `HighlightAfterHoverSpec` state how it is used |
| Extractor.ScanAllFonts | functions/api.js:4-35 | the `forEach` loop with its seen-key Map returns exactly `Extract(doc)` |
| Extractor.Extract | functions/api.js:4-35 | the specification of the scan: `ExtractAt` (first-seen records in document order), `ExtractLength`, `OneRecordPerTuple` and `ExtractComplete` state its properties |
| Extractor.FirstSeen | functions/api.js:8-20 | the first-seen positions are in range, strictly increasing, and no more than the elements |
| Extractor.KeysUpToStep | functions/api.js:17-20 | the seen-key set grows by the current key, and it already holds that key exactly when an earlier element had it |
| Extractor.ExtractStep | functions/api.js:20-30 | one more element appends its record exactly when its key is new |
| Extractor.SeenBeforeInPrefix | functions/api.js:20 | whether an element was seen before depends only on the elements before it |
| Extractor.FirstSeenExactly | functions/api.js:20 | a position is first-seen if and only if no earlier element has the same key |
| Extractor.ExtractAt | functions/api.js:8-34 | the output is, in order, the record of each first-seen element: first-encounter order in document order |
| Extractor.FirstSeenKeysDistinct | functions/api.js:17-20 | the first-seen elements have pairwise distinct keys |
| Extractor.FirstSeenCovers | functions/api.js:17-20 | every element's key is the key of a first-seen element at or before it |
| Extractor.ExtractLength | functions/api.js:5-6 | the output has at most one record per element, and an empty document gives an empty list |
| Extractor.OneRecordPerTuple | functions/api.js:17-20 | for values without bar characters, every raw tuple has a first-seen element and the first-seen tuples are pairwise distinct |
| Extractor.ExtractComplete | functions/api.js:8-30 | for values without bar characters, every element's normalised record appears in the output |
| Extractor.EqualRecordsFromDistinctKeys | functions/api.js:17-22 | `"Name", fallback` and `Name` with equal other fields yield two records that are equal as values |
| Extractor.CollidingKeysKeepOneRecord | functions/api.js:17 | the two colliding raw styles produce a single record |
| Display.FamiliesStep | functions/display.js:11-16 | the family order grows by a family the first time it occurs |
| Display.FilterStep | functions/display.js:11-16 | a family's list grows by each record of that family, in input order |
| Display.FamiliesSpec | functions/display.js:10-16 | the Map's keys are distinct and are exactly the families that occur |
| Display.FilterSpec | functions/display.js:11-16 | a family's list holds exactly the records of that family, each as many times as in the input, as a subsequence of the input |
| Display.FilterNone | functions/display.js:11-16 | a family that does not occur has an empty list |
| Display.InsertFamilySpec | functions/display.js:19 | inserting a new family into an ascending list keeps it ascending and adds exactly that family |
| Display.SortFamiliesSpec | functions/display.js:19 | the sorted families are ascending and a permutation of the Map's keys |
| Display.AscendingDistinct | functions/display.js:19 | an ascending list repeats no family |
| Display.Families | functions/display.js:10-16 | the Map's keys in insertion order: `FamiliesSpec` states they are distinct and exactly the occurring families |
| Display.Filter | functions/display.js:10-16 | a family's list: `FilterSpec` states it holds that family's records with their multiplicities, in input order |
| Display.InsertFamily | functions/display.js:19 | one insertion step of the sort: `InsertFamilySpec` states it keeps the list ascending and adds the family |
| Display.SortFamilies | functions/display.js:19 | the sorted family list: `SortFamiliesSpec` states it is an ascending permutation |
| Display.Header | functions/display.js:25 | the text `[family]` of a group header, as `RenderedEntry` states for each record's group |
| Display.Label | functions/display.js:30 | the entry text `- fontSize/lineHeight, (weight)`, as `RenderedEntry` states for each record |
| Display.EntryFor | functions/display.js:29-30 | an entry with its label and, in the side panel, its `data-font-*` values: `RenderedEntry` states them and `PopupRenderingIsBare` the metadata-free popup form |
| Display.Render | functions/display.js:4-37 | the results area: `Display.Panel.DisplayFonts`, `EveryRecordRenderedOnce`, `GroupViewAscending` and `RenderedKeyPresent` state its content |
| Display.FilterStepAll | functions/display.js:11-16 | every family's list grows at once in one step of the grouping loop |
| Display.GroupByFamily | functions/display.js:10-16 | the grouping loop's Map has exactly the occurring families as keys, each mapped to its records in input order, and its key order is first occurrence |
| Display.RenderGroups | functions/display.js:21-35 | the nested rendering loops produce one group per sorted family, with its header and entries |
| Display.BuildGroups | functions/display.js:9-35 | grouping, sorting and rendering together produce `GroupView` |
| Display.GroupViewAscending | functions/display.js:19-22 | groups appear in strictly ascending family order, so no family is repeated |
| Display.GroupView | functions/display.js:19-35 | the rendered group list: `GroupViewAscending`, `GroupViewFamilies`, `EveryRecordRenderedOnce` and `RenderedEntry` state its properties, and `BuildGroups` computes it |
| Display.GroupViewFamilies | functions/display.js:10-22 | there is a group for a family if and only if some record has that family |
| Display.FilterOfAppend | functions/display.js:11-16 | appending a record extends its own family's list only |
| Display.FiltersOfAppend | functions/display.js:21-33 | appending a record of a listed family adds exactly that record to the rendered records |
| Display.FiltersOfCovers | functions/display.js:21-33 | when every family is listed, the rendered records are a permutation of the input |
| Display.FiltersOfEmpty | functions/display.js:21-33 | nothing is rendered for an empty input |
| Display.EntriesForAppend | functions/display.js:27-31 | entries of concatenated records are the concatenated entries |
| Display.AllEntriesOfGroups | functions/display.js:21-33 | the entries of all groups, in order, are the entries of the records family by family |
| Display.EveryRecordRenderedOnce | functions/display.js:11-33 | every input record is rendered exactly once (multiset equality), and the entries are those records' entries |
| Display.RenderedEntry | functions/display.js:25-30 | each record appears under its own family's group, with header `[family]`, label `- fontSize/lineHeight, (weight)` and key made of family, weight, fontSize and lineHeight joined by bars |
| Display.RenderedKeyPresent | functions/display.js:29-30 | every record's key is among the `data-font-key` attributes of the results |
| Display.EntryKeys | sidepanel.js:143-153 | the `data-font-key` attributes the side panel queries, in document order: `RenderedKeyPresent` and `SidePanel.HighlightAfterHoverSpec` state their properties |
| Display.PopupRenderingIsBare | popup.js:104-116 | the popup renders the same groups, headers and labels, but no entry metadata |
| Display.Panel.constructor | sidepanel.js:5-9 | the panel the script obtains starts valid, with empty results and nothing highlighted; its initial visibility is an assumption (see Left out) |
| Display.Panel.DisplayFonts | functions/display.js:1-38 | hides the loading indicator on every path; gives exactly `<p class="no-results">No fonts found</p>` for an empty input; otherwise sets the results to the grouped view; drops highlights; leaves the error element alone |
| Display.Panel.ShowError | functions/display.js:40-44 | hides loading, sets the error text to the message, shows the error element, and changes nothing else |
| HoverObserver.Start | content-script.js:27-91 | start is a no-op when already listening, and it keeps the observer consistent |
| HoverObserver.Stop | content-script.js:93-110 | stop detaches all listeners and cancels the timer, leaving a consistent observer |
| HoverObserver.OnPage | content-script.js:32-86 | no page event attaches or detaches a listener; each event sends at most one message and only appends |
| HoverObserver.HandleMessage | content-script.js:113-121 | START and STOP are answered `{success: true}`; any other message gets no answer and changes nothing |
| HoverObserver.RunAppend | content-script.js:32-86 | running two traces one after the other is running their concatenation |
| HoverObserver.StartIdempotent | content-script.js:27-91 | starting twice is starting once; starting while active changes nothing; starting from idle attaches all three listeners and keeps the timer and outbox |
| HoverObserver.StopIdempotent | content-script.js:93-110 | stop is idempotent, keeps what was sent, leaves no timer, and is harmless on an idle observer |
| HoverObserver.StoppedObserverSilent | content-script.js:93-110 | after a stop, no trace of page events changes anything, so no report is sent |
| HoverObserver.MouseOverBurst | content-script.js:64-86 | a burst of mouseovers leaves only the last target pending and sends nothing |
| HoverObserver.DebounceSendsOneReport | content-script.js:64-86 | a burst of mouseovers and then the timer firing sends exactly one `FONT_HOVER`, with the last target's font properties |
| HoverObserver.LeavingKeepsPendingReport | content-script.js:32-70 | neither mouseleave nor a leaving mouseout cancels the pending timer, so `MOUSE_LEFT_PAGE` can be followed by `FONT_HOVER` |
| HoverObserver.MouseOutReport | content-script.js:32-48 | a mouseout sends `MOUSE_LEFT_PAGE` exactly when `relatedTarget` is absent, or is body while the target is documentElement |
| HoverObserver.LeavesPage | content-script.js:34 | the left-page test of the mouseout listener: `MouseOutReport` states the messages it causes |
| HoverObserver.QuietTrace | content-script.js:32-86 | during any mix of mouseovers, mouseouts and mouseleaves without a timer firing, the listeners stay, the pending target is the last mouseover's, and only `MOUSE_LEFT_PAGE` is sent |
| HoverObserver.DebounceOverPointerTrace | content-script.js:64-86 | after any such pointer movement with at least one mouseover, the timer firing sends exactly one `FONT_HOVER`, for the last mouseover's target, preceded only by `MOUSE_LEFT_PAGE` messages |
| HoverObserver.Observer.constructor | content-script.js:3-6 | the slots start empty |
| HoverObserver.Observer.StartHoverDetection | content-script.js:27-91 | the new state is `Start` of the old one |
| HoverObserver.Observer.StopHoverDetection | content-script.js:93-110 | the new state is `Stop` of the old one |
| HoverObserver.Observer.MouseOver | content-script.js:64-86 | the new state is `OnPage` of the old one: while listening, any pending callback is cancelled and one for the new target is scheduled, and nothing is sent |
| HoverObserver.Observer.MouseOut | content-script.js:32-48 | the new state is `OnPage` of the old one for this mouseout: `MOUSE_LEFT_PAGE` is appended exactly in the leaving cases, and the timer is untouched |
| HoverObserver.Observer.MouseLeave | content-script.js:51-62 | the new state is `OnPage` of the old one: while listening, `MOUSE_LEFT_PAGE` is always appended and the timer is untouched; the event may be the page's or any element's, since the listener captures |
| HoverObserver.Observer.TimerFires | content-script.js:70-85 | the new state is `OnPage` of the old one: a pending callback is consumed and sends `FONT_HOVER` with `getFontProperties` of its target |
| HoverObserver.Observer.OnMessage | content-script.js:113-121 | state and reply are `HandleMessage` of the old state |
| ScanOutcomes.FixedMessagesUnprefixed | sidepanel.js:25-86 | no fixed error message starts with `Error: ` |
| ScanOutcomes.MessageRoundTrip | sidepanel.js:25-86 | the displayed message can be read back as the failing check (and the runtime error's text) |
| ScanOutcomes.MessageInjective | sidepanel.js:25-86 | different failures show different messages |
| ScanOutcomes.PermissionTestRedundant | sidepanel.js:61-66 | the permission test holds if and only if the message contains `permission`, `host` or `Cannot access`; the `Cannot access contents` test is subsumed |
| ScanOutcomes.PermissionErrorOccurrence | sidepanel.js:61-66 | the permission test holds if and only if one of the substrings occurs at some position |
| ScanOutcomes.IsPermissionError | sidepanel.js:61-66 | the four case-sensitive `includes` tests: `PermissionTestRedundant` and `PermissionErrorOccurrence` state what they accept |
| ScanOutcomes.ErrorText | sidepanel.js:25-86 | the exact text shown for each failure: `MessageRoundTrip` and `MessageInjective` state that it identifies the failure |
| SidePanel.Diagnose | sidepanel.js:23-87 | a scan succeeds if and only if there is a tab and scripting, with no runtime error and a result; it is a permission failure if and only if the runtime error passes the permission test |
| SidePanel.DiagnoseOrder | sidepanel.js:24-87 | the checks apply in order: no tab, no scripting, runtime error (permission advice or `Error: ` + message), no result |
| SidePanel.ToggleCommandsSpec | sidepanel.js:166-191 | toggling sends nothing without a truthy hover tab; it addresses only that tab; enabling starts with START and never sends STOP; disabling sends exactly STOP |
| SidePanel.FirstMatch | sidepanel.js:151-153 | `find` returns the least index whose key matches, or nothing exactly when no entry matches |
| SidePanel.HighlightAfterHoverSpec | sidepanel.js:134-163 | with hover mode on, exactly the first matching entry is highlighted and nothing when none matches; with it off, nothing changes |
| SidePanel.HoverOverScannedElement | sidepanel.js:134-163 | for values without bar characters, hovering any element of the scanned page highlights exactly one entry, the first that carries its key |
| SidePanel.TabIsSet | sidepanel.js:173 | the truthiness of `currentTabIdForHover` (`null` and `0` are falsy): `ToggleCommandsSpec` states that nothing is sent without it |
| SidePanel.InjectCommands | sidepanel.js:110-123 | the injection, then START when it succeeded: `SidePanel.SessionController.InjectHoverDetection` logs exactly these |
| SidePanel.ToggleCommands | sidepanel.js:166-191 | the commands a toggle sends: `ToggleCommandsSpec` states their properties |
| SidePanel.HighlightAfterHover | sidepanel.js:134-163 | the highlighted set after a hover report: `HighlightAfterHoverSpec` states it is exactly the first match, and unchanged when hover mode is off |
| SidePanel.SessionController.constructor | sidepanel.js:12-13 | hover mode off and no tabs recorded |
| SidePanel.SessionController.ClearHighlights | sidepanel.js:126-131 | afterwards no entry is highlighted and nothing else changes |
| SidePanel.SessionController.InjectHoverDetection | sidepanel.js:110-123 | logs the injection, and START when it succeeded |
| SidePanel.SessionController.ScanFonts | sidepanel.js:15-92 | clears the old results and error; re-enables the scan button; on failure shows the failure's message; on success displays the fonts, injects hover detection, records the hover tab and enables the toggle |
| SidePanel.SessionController.HighlightFontCombination | sidepanel.js:134-163 | the highlighted set becomes `HighlightAfterHover` of the entries' keys |
| SidePanel.SessionController.ToggleHoverMode | sidepanel.js:166-191 | flips hover mode (so toggling twice restores it); logs `ToggleCommands`; clears all highlights when disabling |
| SidePanel.SessionController.OnMessage | sidepanel.js:194-200 | `FONT_HOVER` highlights; `MOUSE_LEFT_PAGE` clears highlights whatever the mode; anything else changes nothing |
| SidePanel.SessionController.UpdateCurrentTab | sidepanel.js:98-107 | a different active tab becomes the current tab and clears results and error; the same tab changes nothing |
| SidePanel.SessionController.ResetHoverMode | sidepanel.js:214-220 | when hover mode is on: turn it off, clear highlights, forget the hover tab |
| SidePanel.SessionController.OnActivated | sidepanel.js:211-221 | hover is always reset, even if the tab did not change; results and error are cleared only when the active tab differs |
| SidePanel.SessionController.OnUpdated | sidepanel.js:224-238 | a `complete` update of the current tab clears results and error and resets hover; any other update changes nothing |
| Popup.PopupDiagnose | popup.js:13-45 | there is no permission category; success needs a tab, scripting, no runtime error and a result |
| Popup.PopupAgreesWithSidePanel | popup.js:35-38 | the popup reports what the side panel reports, except that permission failures appear as `Error: ` + message |
| Popup.ScanFonts | popup.js:11-48 | shows the failure's message, or displays the fonts without metadata; hides loading on every path |

## Left out

- The `chrome.*` APIs (`tabs.query`, `tabs.get`, `scripting.executeScript`, `tabs.sendMessage`, `runtime.sendMessage`, `sidePanel`) are not modelled. Their answers are parameters, and the calls the side panel issues are a log. The `chrome.tabs.get` call in `scanFonts` has no effect on the outcome and is not logged.
- `getComputedStyle` and the DOM are not modelled. An element is its four computed style strings, in document order. Event targets are only "none", body, documentElement or another element.
- Real timers are not modelled. The 100 ms debounce delay is the explicit `TimerFires` event. A timer whose callback has run counts as no timer, because `clearTimeout` on it does nothing.
- `localeCompare` is not modelled. Families are sorted in plain lexicographic code-point order (`Strings.Below`), which is a strict total order.
- Strings are sequences of code points, not UTF-16 code units.
- HTML serialisation, attribute escaping, `innerHTML` parsing, `scrollIntoView`, button texts and CSS classes are not modelled. Only the `highlighted` class is kept, as the set of highlighted entry indices.
- The initial state of the side panel's buttons and of its loading, error and results elements comes from its HTML page, which is not part of this model. The constructors assume the hover button starts disabled, the loading indicator and the error element hidden, and the results empty.
- Async interleavings are not modelled; every handler runs to completion. In `onActivated` the hover reset comes before `updateCurrentTab`'s query answer, which is when that callback takes effect. The two touch different state except for the highlights, which both clear.
- Re-injecting the content script can leave several observer instances in one page. The model has a single instance.
- Messages are told apart by constructor, not by comparing `type` strings.
- The mouseleave listener is registered in the capture phase (content-script.js:90), so it also runs when the pointer leaves any element of the page, not only the page itself. The model lets `MouseLeave` occur at any point of a trace, which covers both; it does not say which element was left.
- The popup has no scan or hover buttons, and its entries carry no key, so it has no highlighting.
- background.js (side panel registration) and functions/ui.js (UI toggles, and a `highlightFontCombination` variant that sidepanel.js does not import) are not modelled.
- Extractor.OneRecordPerTuple: "one record per distinct raw tuple" is proved only for weights, sizes and line heights without `|`, because the code deduplicates on the joined string. `Fonts.RawKeyCollision` shows two different tuples that share a key.
- Extractor.ExtractComplete: completeness is proved under the same `|`-free condition. With a key collision the later element's record may be missing.
- SidePanel.HoverOverScannedElement: proved under the same `|`-free condition, because it rests on Extractor.ExtractComplete.
