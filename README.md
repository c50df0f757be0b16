# Pastor clipboard history, modelled in Dafny

Pastor is a menu-bar clipboard manager. Its `ClipboardWatcher` polls the
pasteboard and keeps the history of copied texts as a list, newest first.
Copying a text that is already in the list promotes its entry to the front
and counts one more access. Copying a new text inserts a fresh entry at the
front and drops the oldest entries beyond the "Remember items" setting.
Entries are removed by `id`, but deduplicated by `content`: the entry's `==`
looks at the text only. At start-up the history is loaded from encrypted
storage, falling back to an older list-of-strings format that is migrated.
The list view filters the history by a case-insensitive search and shows
each text trimmed of leading whitespace and cut to 64 characters.

The project has five modules:

- `Items` (`items.dfy`): the `ClipboardItem` record, its defaulted
  initializer and its content-only equality.
- `Text` (`text.dfy`): the two `String` extensions, leading trimming and
  truncation with a trailing marker.
- `Seqs` (`seqs.dfy`): Swift's `filter`/`removeAll(where:)` as one generic
  `Filter`, with lemmas on multiplicity and order.
- `History` (`history.dfy`): the history operations as functions on the
  list (`Added`, `WithoutId`, `Migrated`, `AfterLoad`), the lemmas about
  them, and the `ClipboardWatcher` class whose methods update `items`,
  `isRunning` and `lastChangeCount` and are proved against those functions.
- `Display` (`display.dfy`): the search filter and the row construction of
  the list view.

Inputs from outside the program are parameters. These are the pasteboard's
change count and string, the integer in the settings store, the results of
the two storage reads, and the values `UUID()` and `Date()` would return.
A UUID is a `nat` and a date is an integer number of seconds.

Behaviour worth noting:

- A tick reacts to any change of the pasteboard's change count (`!=`), not
  only to an increase.
- A failed load is only printed.
- Empty pasteboard text is not rejected.
- Of the load and save operations, Pastor/SecureStorage.swift defines only
  `saveStrings`, `loadStrings` and `deleteAll`. The `loadItems` and `saveItems` that `ClipboardWatcher` calls
  for the structured format are not defined anywhere in the source. In the
  model, the structured load result (`fromItems`) is an unconstrained input,
  and the write-back after a migration (`resave`) stands for a call to a
  method the source does not contain.
- The list view (Pastor/ContentView.swift) treats the history as a list of
  strings, declares its own `ClipboardItem` row type, and calls
  `removeItem` with a string. That does not match `ClipboardWatcher`, so
  `Display` models the view on its own terms, over `seq<string>`.

## Model

| member | source | states |
|---|---|---|
| `Items.Make` | Pastor/ClipboardItem.swift:18-32 | the initializer stores every supplied field unchanged |
| `Items.MakeDefaults` | Pastor/ClipboardItem.swift:18-25 | when they are not supplied, `isFavorite` is false, `accessCount` is 0 and `sourceApp` is nil |
| `Items.SameContentIgnoresMetadata` | Pastor/ClipboardItem.swift:35-37 | `==` holds exactly when the contents agree, whatever the id, timestamp, favourite flag, access count and source app |
| `Items.SameContentIsEquivalence` | Pastor/ClipboardItem.swift:35-37 | `==` is reflexive, symmetric and transitive |
| `Items.SameContentIsNotIdentity` | Pastor/ClipboardItem.swift:35-37 | two entries with the same content and different ids are `==` but are not the same entry |
| `Text.TrimLeading` | Pastor/Extensions.swift:12-15 | the result is a suffix of the input, is empty or starts with a non-whitespace character, and everything dropped is whitespace or a newline |
| `Text.TrimLeadingIsUnique` | Pastor/Extensions.swift:12-15 | any suffix with those three properties is the trimmed string, so the contract characterises trimming completely |
| `Text.TrimLeadingIdempotent` | Pastor/Extensions.swift:12-15 | trimming twice gives the same as trimming once |
| `Text.TrimLeadingKeepsTrimmed` | Pastor/Extensions.swift:13 | a string with no leading whitespace or newline comes back unchanged |
| `Text.Truncated` | Pastor/Extensions.swift:17-21 | a string of at most `length` characters is returned unchanged; a longer one gives its first `length` characters followed by `trailing`, so the result's length is `length` plus the length of `trailing`; a negative `length` is excluded because the source traps on it |
| `Text.TruncatedIdempotent` | Pastor/Extensions.swift:17-21 | truncating a truncated string changes nothing |
| `Text.TruncatedDefaultLength` | Pastor/Extensions.swift:17-21 | with the default trailing `"..."`, a truncated string is the limit plus three characters long |
| `History.EffectiveMaxItems` | Pastor/ClipboardWatcher.swift:25-28 | the maximum is always positive; it is the stored setting exactly when that is positive, and 20 otherwise |
| `History.EffectiveMaxItemsInRange` | Pastor/SettingsView.swift:14 | every value in the settings range 20...1000 is used as it is |
| `History.FirstIndexOf` | Pastor/ClipboardWatcher.swift:61 | the result is the first index whose content is the text, or none when no entry has that content |
| `History.AddedExisting` | Pastor/ClipboardWatcher.swift:61-66 | re-copying a text keeps the length; its first entry moves to index 0 with exactly one more access; the other entries keep their relative order |
| `History.AddedFresh` | Pastor/ClipboardWatcher.swift:68-73 | copying a new text puts a fresh entry with no accesses at index 0, followed by the old entries in order, the whole cut to `maxItems` |
| `History.AddedPutsTextFirst` | Pastor/ClipboardWatcher.swift:59-74 | after any copy the newest entry holds the copied text |
| `History.AddedWithinCapacity` | Pastor/ClipboardWatcher.swift:71-73 | a list within `maxItems` stays within it; a list is never made longer than both its old length and `maxItems`; eviction keeps a prefix |
| `History.AddedKeepsDistinct` | Pastor/ClipboardWatcher.swift:61-70 | if no two entries share content before a copy, none do after it |
| `History.AddedAllInvariant` | Pastor/ClipboardWatcher.swift:59-76 | over any run of copies from a valid list, the capacity bound and distinct contents hold |
| `History.ThreeItemScenario` | Pastor/ClipboardWatcher.swift:59-74 | with a maximum of 3, copying a, b, c, d leaves d, c, b; copying b again gives b, d, c with b accessed once |
| `History.WithoutIdRemovesExactly` | Pastor/ClipboardWatcher.swift:78-81 | removal drops every entry with that id, keeps every other entry as often as it occurs, and keeps their order |
| `History.WithoutAbsentId` | Pastor/ClipboardWatcher.swift:79 | removing an id that no entry has leaves the list unchanged |
| `History.WithoutIdIgnoresContent` | Pastor/ClipboardWatcher.swift:79 | an entry with the removed entry's content but another id is kept |
| `History.WithoutIdKeepsDistinct` | Pastor/ClipboardWatcher.swift:79 | removal keeps "no two entries share content" and never makes the list longer, so the capacity bound is kept too |
| `History.MigratedKeepsOrder` | Pastor/ClipboardWatcher.swift:116-123 | migrated legacy strings keep their order and get the supplied ids, no accesses and default metadata; their timestamps `now - 60*i` strictly decrease with the index |
| `History.AfterLoadCases` | Pastor/ClipboardWatcher.swift:111-129 | the structured list is used when it loads; otherwise the legacy strings, in order, when they load; otherwise the list is unchanged |
| `History.ClipboardWatcher.constructor` | Pastor/ClipboardWatcher.swift:29-35 | a new watcher remembers the pasteboard's change count, holds the loaded history and is running |
| `History.ClipboardWatcher.StartMonitoring` | Pastor/ClipboardWatcher.swift:37-42 | monitoring sets the running flag |
| `History.ClipboardWatcher.StopMonitoring` | Pastor/ClipboardWatcher.swift:44-47 | stopping clears the running flag |
| `History.ClipboardWatcher.CheckForChanges` | Pastor/ClipboardWatcher.swift:49-57 | an unchanged change count changes nothing; a different one is remembered, and the pasteboard text, if there is one, is added |
| `History.ClipboardWatcher.AddNewItem` | Pastor/ClipboardWatcher.swift:59-76 | the new list is `Added` of the old one under the effective maximum; the capacity bound and distinct contents are kept; the copied text is first |
| `History.ClipboardWatcher.RemoveItem` | Pastor/ClipboardWatcher.swift:78-81 | the new list is the old one without the entries carrying the item's id; an absent id leaves it unchanged; the list gets no longer, and distinct contents are kept |
| `History.ClipboardWatcher.ClearItems` | Pastor/ClipboardWatcher.swift:83-86 | the list becomes empty |
| `History.ClipboardWatcher.LoadData` | Pastor/ClipboardWatcher.swift:111-129 | the new list is `AfterLoad` of the old one; the list is written back exactly when the legacy format was migrated |
| `Seqs.Filter` | Pastor/ContentView.swift:100 | the result keeps only elements satisfying the predicate, takes nothing from outside the input, and keeps every input element that satisfies it |
| `Display.MakeItem` | Pastor/ContentView.swift:120-127 | the row keeps its index as id and the full text; the shown text is a prefix of the trimmed text, as long as the trimmed text or `textLimit`, whichever is shorter; the row is truncated exactly when the trimmed text is longer than the limit, that is, exactly when something was cut |
| `Display.Contains` | Pastor/ContentView.swift:100 | the search succeeds exactly when the searched text occurs at some position |
| `Display.LowercasedIdempotent` | Pastor/ContentView.swift:82 | lowercasing twice is lowercasing once |
| `Display.FilterAndTransform` | Pastor/ContentView.swift:97-109 | an empty search keeps every text; there is one row per kept text, in order; row `k` has id `k` and the `k`-th kept text as full text; its shown text is the prefix of the trimmed text that is as long as the trimmed text or 64, whichever is shorter; it is marked truncated exactly when the trimmed text is longer than 64, that is, exactly when something was cut |
| `Display.EmptySearchListsAll` | Pastor/ContentView.swift:98-99 | an empty search lists every text in the original order, numbered by position |
| `Display.SearchListsMatches` | Pastor/ContentView.swift:100-108 | a non-empty search keeps exactly the texts containing it up to case, as often as they occur and in order; the rows carry those texts with ids 0, 1, ... |
| `Display.LowercasingSearchIsHarmless` | Pastor/ContentView.swift:82 | lowercasing the search text before filtering gives the same rows as filtering with the text as typed |

## Left out

- Pastor/SecureStorage.swift (AES-GCM sealing, the Keychain, the atomic file write, file paths) is not part of this model. Its `loadStrings` is seen only through its result, a loaded list or a failure. The structured `loadItems`/`saveItems` it would need are not in the source, so their result is an unconstrained input.
- The storage round trip, that a later load reads back the list just migrated, depends on SecureStorage and is not modelled.
- The saves triggered by `didSet` on `items` and by `saveData()` after every operation are left out. Their number is not a property of the history, and in a debug build they are skipped.
- The debug-build branches are left out: the save that does nothing, and the 3500 generated test entries in `loadData`.
- `NSPasteboard` and the one-second `Timer` are left out. A tick is a call of `CheckForChanges` with the change count and text the pasteboard reports, and monitoring is the `isRunning` flag. The source reads the change count twice in one tick; the model reads it once.
- `UUID()` and `Date()` are parameters. The legacy migration reads `Date()` again for every entry; the model uses one reading `now` for all of them.
- `maxItems` reads the settings store (`UserDefaults`) each time it is used: once for the length test, and once more when truncation runs. The model reads one stored integer per call.
- `Items.Make`: `accessCount` is an unbounded integer. At Swift's `Int.max` the increment in `addNewItem` would trap; that case is not modelled.
- `Text.IsWhitespaceOrNewline`: a Swift `Character` is a grapheme cluster, so `"\r\n"` is one whitespace character. The model works on single Unicode scalars, using the Unicode White_Space set.
- `Display.LowerChar`: `lowercased()` uses locale-independent Unicode case mapping, and `localizedCaseInsensitiveContains` also depends on the current locale. The model folds only the ASCII letters A-Z.
- `Items.SameContent`, `History.FirstIndexOf`, `Display.ContainsIgnoringCase`, `Text.Truncated` and `Display.MakeItem` work on Unicode scalars. Swift compares strings by canonical equivalence, so `"caf\u{E9}" == "cafe\u{301}"` holds there, and re-copying the decomposed form promotes the existing entry. The model tells the two apart and inserts a second entry, so `DistinctContents` is scalar-wise distinctness. Swift's `count` and `prefix` count grapheme clusters, where the model counts scalars. Canonical equivalence and grapheme segmentation are Unicode tables that the model does not carry.
- The detached task and `MainActor` handoff in `updateFilteredItems` are concurrency and are left out, as is the rest of the SwiftUI and AppKit code: the views, `HoverButton`, `SearchField`, the settings screen and the app entry point.
- Pastor/LaunchAtLoginHelper.swift is not part of this model. It registers the app with the operating system, which is a foreign call.
