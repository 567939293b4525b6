# Mix-Browser shell core in Dafny

This project models the shell of Mix-Browser, a desktop browser built on
Electron. The model covers:

- **Tabs.** The tab list and the active tab: adding, closing, pinning,
  duplicating and closing the others (`App`).
- **Keyboard shortcuts.** The key-combination matcher and the commands it
  issues (`Shortcuts`).
- **Navigation actions.** The one-shot actions sent to the embedded web view,
  and the navigation state the view reports back (`BrowserArea`).
- **Address bar.** Classifying the address-bar text as an address or a search
  (`TopBar`).
- **Search.** The home page search and the search overlay, with their shared
  engine table (`Home`, `SearchOverlay`).
- **Translations.** The translation tables with placeholder substitution
  (`Translations`).
- **Downloads.** The downloads list (`Downloads`).
- **Settings dialog.** Shortcut editing, the two sliders and the engine
  chooser (`SettingsModal`).
- **Profile dialog.** Password import and export as CSV, the privacy toggles
  and the show/hide switch (`ProfileModal`).
- **Main process.** Its persistence handlers for passwords, settings and
  visit statistics, and its HTTPS-only and Do-Not-Track request policy
  (`Persistence`).

`Common` holds Option and the JavaScript string and array operations the
code relies on:

- `filter`, `trim` and `split`;
- `toLowerCase` on ASCII letters;
- `String.prototype.replace` with a string pattern.

`Uri` holds `encodeURI` and `encodeURIComponent` as UTF-8 percent-encoding.

How each kind of source file is modelled:

- **Pure functions.** The updaters that App.tsx passes to React's state
  setters are pure functions on a `Registry(tabs, activeTabId)` value.
- **Classes.**
  - Class `App.AppState` holds the component's state and applies those
    updaters in its methods.
  - The main process's stores are class `Persistence.Store`. Each JSON file
    is an `Option` field; `None` is a missing or unreadable file.
  - The embedded web views are class `BrowserArea.WebView`. The component
    holding them is class `BrowserArea.BrowserArea`.
- **Loops.** The two loops of the source become methods with loop
  invariants:
  - the line-by-line CSV import (`ProfileModal.ProfileView.Import`);
  - the placeholder substitution (`Translations.Translate`).

Each method is proved against a specification function. The lemmas state
what the source promises about that function, for example:

- the stats list is sorted, stably, by visits;
- a saved password is found again;
- exporting and re-importing passwords gives the quoted fields back;
- closing a tab keeps the other tabs in order;
- the active tab is the only web view shown.

Some behaviours of the code depart from what its design suggests; the model
keeps them as the code has them:

- **CSV re-import keeps the quotes.** The import reads the comma-separated
  lines that the export writes, but the export puts every field in double
  quotes, and the import neither strips them nor honours them. So
  re-importing an export saves values with their quotes kept
  (`ProfileModal.ReimportNonEmpty`). A field that contains a comma is split
  apart.
- **Blank fields are still saved.** Import checks that fields are non-empty
  before trimming. A row whose url is only blanks is therefore saved, with an
  empty url (`ProfileModal.BlankFieldSavedEmpty`).
- **IP test has no range check.** The address bar's IP test does not check
  ranges: `999.999.999.999` counts as an address (`TopBar.IpNotRangeChecked`).
- **Fallback engines differ.** Without an engine url, the search overlay
  falls back to `https://google.com/search?q=`. The address bar's default is
  `https://www.google.com/search?q=`.

## Model

| member | source | states |
|---|---|---|
| Common.Filter | src/components/Sidebar.tsx:80-81 | `Array.prototype.filter`: the result holds exactly the elements that satisfy the predicate, and is no longer than the input |
| Common.FilterConcat | src/App.tsx:80 | filtering a concatenation is the concatenation of the filtered parts, so filtering keeps order |
| Common.FilterPartition | src/components/Sidebar.tsx:80-81 | a predicate and its negation split a list into two parts whose multisets add up to the whole |
| Common.IndexOf | src/translations.ts:114 | the first position where the pattern occurs, or none when it occurs nowhere |
| Common.ReplaceFirst | src/translations.ts:114 | `replace` with a string pattern: unchanged without a match; otherwise only the first occurrence is replaced |
| Common.Split | src/components/ProfileModal.tsx:79 | `split` on one character: at least one part, and no part contains the separator |
| Common.SplitCons | src/components/ProfileModal.tsx:79 | a separator-free first part followed by the separator splits off as its own first field |
| Common.SplitJoin | src/components/ProfileModal.tsx:79 | splitting a join of separator-free parts gives the parts back |
| Common.JoinSplit | src/App.tsx:153 | joining the parts of a split gives the original string back |
| Common.Trim | src/components/TopBar.tsx:48 | `trim`: a result that neither starts nor ends with white space, and is empty exactly when the input is all white space |
| Common.TrimIsSlice | src/components/TopBar.tsx:48 | the trimmed string is the slice of the input left between its leading white space and its trailing white space |
| Common.TrimUntouched | src/components/TopBar.tsx:48 | a string with no white space at either end is not changed by trimming |
| Common.ToLower | src/App.tsx:153 | same length; every letter is lowered; no upper-case ASCII letter is left |
| Common.ToLowerIdempotent | src/App.tsx:155 | lowering twice is lowering once, so both sides of the shortcut comparison are normalised alike |
| Sidebar.FindIndex | src/App.tsx:212 | `findIndex` by id: the first tab carrying the id, or none when no tab does |
| Sidebar.FindTab | src/App.tsx:207 | `find` by id: the FIRST tab of the list carrying that id, and none exactly when no tab has it |
| Sidebar.PinnedTabs | src/components/Sidebar.tsx:80 | the pinned group holds exactly the pinned tabs |
| Sidebar.UnpinnedTabs | src/components/Sidebar.tsx:81 | the unpinned group holds exactly the unpinned tabs |
| Sidebar.GroupsKeepOrder | src/components/Sidebar.tsx:80-81 | both groups keep the tab list's order |
| Sidebar.DisplayOrder | src/components/Sidebar.tsx:102-129 | the sidebar shows each tab exactly once (a permutation): the pinned group then the unpinned group, each in list order, so every pinned tab is above every unpinned one |
| Sidebar.EachTabInOneGroup | src/components/Sidebar.tsx:80-81 | a tab appears as often on screen as in the list, and in the pinned group exactly when it is pinned |
| Sidebar.CloseButtonsOnUnpinnedGroup | src/components/Sidebar.tsx:46-54 | a tab has a close button exactly when it is in the unpinned group; pinned tabs have none |
| Sidebar.ContextMenuIsPinned | src/components/Sidebar.tsx:142 | the context menu says "pinned" exactly when the first tab with the id is pinned, and "not pinned" for an unknown id |
| Shortcuts.ModifiersInFixedOrder | src/App.tsx:141-145 | the held modifiers are listed in the order Ctrl, Alt, Shift, Meta |
| Shortcuts.Combo | src/App.tsx:146-153 | no combination for a bare modifier key; otherwise the lowered `+`-join of the modifiers and the normalised key |
| Shortcuts.FirstMatch | src/App.tsx:155 | `find` over the shortcut list: the first shortcut whose lowered keys equal the combination |
| Shortcuts.FirstMatchIsUnique | src/App.tsx:155 | after a prefix without a match, the first match is the next matching shortcut, or none at the end |
| Shortcuts.HandleKey | src/App.tsx:140-184 | modifier keys do nothing; F12 always fires devtools; the default is prevented exactly when some shortcut matches; the command issued is the one of the first matching shortcut, and only a matching shortcut issues one |
| Shortcuts.ToLowerConcat | src/App.tsx:153 | lowering distributes over concatenation |
| Shortcuts.JoinSnoc | src/App.tsx:153 | joining a list with one more part appends the separator and that part |
| Shortcuts.MatchingIgnoresCase | src/App.tsx:153-155 | two key presses with the same modifiers and keys equal up to case give the same command and the same preventDefault |
| Shortcuts.CtrlTOpensNewTab | src/App.tsx:56-63 | with the default shortcuts, Ctrl+T opens a new tab |
| Shortcuts.F12AlwaysFires | src/App.tsx:181-183 | with the default shortcuts, which bind nothing to F12, a bare F12 issues no command and keeps the default, but still fires the standalone F12 handler |
| App.SameIdsKeepUnique | src/App.tsx:97-99 | a map that keeps every tab's id keeps the ids unique and the id set unchanged |
| App.FilterKeepsUnique | src/App.tsx:80 | filtering never creates a duplicate id |
| App.AddedTab | src/App.tsx:71-75 | a "New Tab" on the home page is appended and made active; the registry stays valid for a fresh id |
| App.RemovedTab | src/App.tsx:77-91 | closing the last tab leaves a fresh Home tab; otherwise the remaining tabs are the filtered list in its order; closing the active tab activates the new last tab; the active id stays on a tab |
| App.RemoveUnknownKeepsTabs | src/App.tsx:77-91 | removing an id no tab carries keeps the tab list unchanged and in order; if that id was active (as after close-others on an unknown id, App.tsx:203), the last tab becomes active |
| App.RemoveKeepsOrder | src/App.tsx:80 | closing a tab keeps the tabs before and after it in order |
| App.OthersKept | src/App.tsx:80 | with unique ids, only the closed tab fails the filter |
| App.Retitled | src/App.tsx:97-99 | only the tabs with that id get the new title; the others are unchanged |
| App.Navigated | src/App.tsx:103 | only the active tab gets the new url and the title "Loading..."; ids and pins are kept |
| App.PinToggled | src/App.tsx:191-193 | only the tabs with that id have their pin flipped |
| App.PinToggleTwice | src/App.tsx:191-193 | toggling a pin twice restores the list |
| App.OthersClosed | src/App.tsx:195-204 | for a known tab, exactly that tab and the pinned tabs are kept, and it becomes active; an unknown id leaves the tabs and only moves the active id |
| App.Duplicated | src/App.tsx:206-218 | a copy with a fresh id goes right after the original, and nothing else moves; an unknown id changes nothing; ids stay unique |
| App.DuplicateIds | src/App.tsx:212-215 | splicing a copy into the list adds exactly its id to the id set |
| App.SearchTabAdded | src/App.tsx:276-282 | a search result opens as a new active "Search" tab at the end |
| App.ActiveTab | src/App.tsx:126 | the active tab is the first tab carrying the active id when there is one, else the first tab; none only with no tabs |
| App.AddressBarUrl | src/App.tsx:241 | the address bar gets the empty text for the home url (and when there is no tab), and the active tab's url otherwise |
| App.TriggeredKinds | src/App.tsx:153-183 | a key press triggers at most two view actions, never Stop; F12 always ends with DevTools; nothing without a command or F12 |
| App.F12ShortcutFiresTwice | src/App.tsx:171-183 | with a shortcut list that binds "dev-tools" to F12, one F12 press triggers DevTools twice: once as the shortcut and once in the standalone handler (no such list arises in the shipped app) |
| App.ReboundReloadFiresTwice | src/App.tsx:163-183 | after the settings dialog rebinds "reload" to F12, one F12 press triggers Reload and then DevTools: the standalone F12 check fires although a shortcut matched |
| App.AppState.constructor | src/App.tsx:27-41 | one Home tab, active; no action pending; nothing can go back or forward |
| App.AppState.AddTab | src/App.tsx:71-75 | the state becomes `AddedTab` of the old state, and stays valid |
| App.AppState.RemoveTab | src/App.tsx:77-91 | the state becomes `RemovedTab` of the old state; the active id still names a tab |
| App.AppState.ActivateTab | src/App.tsx:93-95 | only the active id changes |
| App.AppState.UpdateTabTitle | src/App.tsx:97-99 | the tabs become `Retitled` |
| App.AppState.Navigate | src/App.tsx:103-117 | the tabs become `Navigated`; the search overlay closes; a visit is recorded for the url's host unless the url is internal (`mix://`) |
| App.AppState.TriggerNavAction | src/App.tsx:119-124 | a fresh action for the active tab replaces the pending one |
| App.AppState.ClearNavAction | src/App.tsx:123 | the pending action is cleared |
| App.AppState.ReceiveNavState | src/App.tsx:265-269 | the state a view reports is kept only when it comes from the active tab |
| App.AppState.TogglePin | src/App.tsx:191-193 | the tabs become `PinToggled` |
| App.AppState.CloseOthers | src/App.tsx:195-204 | the state becomes `OthersClosed` |
| App.AppState.Duplicate | src/App.tsx:206-218 | the tabs become `Duplicated` |
| App.AppState.OpenSearchResult | src/App.tsx:276-282 | the state becomes `SearchTabAdded`, and the overlay closes |
| App.AppState.ToggleSearch | src/App.tsx:65 | the overlay flag flips |
| App.AppState.HandleKeyDown | src/App.tsx:140-184 | the matched command is applied: a new tab, closing the active tab, focusing the url bar or else toggling the overlay; view actions are issued as `TriggeredKinds` says, the last one pending; nothing else changes |
| App.AppState.RunCommand | src/App.tsx:158-178 | the matched command alone: a new tab, closing the active tab, focusing the url input or else toggling the overlay; Reload, Back, Forward and DevTools each become the one pending view action; nothing else changes |
| Persistence.Merge | electron/main.ts:123-127 | a shallow merge: the keys of both; saved values override; the others are kept |
| Persistence.MergeEmpty | electron/main.ts:123-127 | saving an empty object changes nothing |
| Persistence.MergeIdempotent | electron/main.ts:123-127 | saving the same values twice is saving them once |
| Persistence.MergeTwice | electron/main.ts:123-127 | two saves in a row equal one save of the merged objects |
| Persistence.DefaultsPolicy | electron/main.ts:81-101 | without a settings file, requests are not redirected, DNT is sent, and statistics are on |
| Persistence.UpgradeToHttps | electron/main.ts:88 | a leading `http://`, in any letter case, becomes `https://`; any other url is unchanged |
| Persistence.UpgradeIdempotent | electron/main.ts:88 | an upgraded url is not upgraded again |
| Persistence.RedirectFor | electron/main.ts:86-93 | a redirect exactly when HTTPS-only is on; an url whose scheme is `http://` in any letter case is redirected to its `https://` address, any other url to itself |
| Persistence.LowerLiteral | electron/main.ts:88 | the lower-case scheme is matched |
| Persistence.UpperLiteral | electron/main.ts:88 | the upper-case scheme is matched too (the `i` flag) |
| Persistence.HeadersFor | electron/main.ts:96-101 | with Do Not Track on, `DNT: 1` is added or overwritten; otherwise the headers are unchanged; other headers are always kept |
| Persistence.FindAccount | electron/main.ts:108 | `findIndex` by (url, username): the first entry for that account |
| Persistence.Upserted | electron/main.ts:106-113 | a known account has only its password replaced, everything else unchanged; a new account is appended with the fresh id |
| Persistence.UpsertThenLookup | electron/main.ts:106-113 | after a save, the account's password is the saved one, and every other account's password is unchanged |
| Persistence.UpsertIdempotent | electron/main.ts:106-113 | saving the same credentials again changes nothing |
| Persistence.Deleted | electron/main.ts:114-118 | exactly the entries with that id are removed; a missing id changes nothing |
| Persistence.DeleteKeepsOrder | electron/main.ts:114-118 | deleting keeps the order of the remaining entries |
| Persistence.DeleteUndoesNewSave | electron/main.ts:106-118 | deleting a new account's entry, under a fresh id, restores the list |
| Persistence.FindDomain | electron/main.ts:136 | `find` by domain: the first entry for the domain; none exactly when the domain has no entry |
| Persistence.VisitsOfEntry | electron/main.ts:136 | with unique domains, a domain's count is that of its entry |
| Persistence.Bumped | electron/main.ts:136-141 | an existing domain gets one more visit and the new time; a new domain is appended with one visit |
| Persistence.BumpedCounts | electron/main.ts:136-141 | the step keeps domains unique, adds the domain, gives it one more visit and leaves every other count alone |
| Persistence.BumpedExisting | electron/main.ts:136-139 | for a domain already listed, its entry gets one more visit; the domains and every other count stay as they were |
| Persistence.BumpedNew | electron/main.ts:136-141 | for a domain not listed, an entry with one visit is appended; the domains grow by it and every other count stays as it was |
| Persistence.Insert | electron/main.ts:144 | an insertion step keeps the entries (a permutation) and adds one |
| Persistence.InsertSorted | electron/main.ts:144 | inserting into a list sorted by descending visits keeps it sorted |
| Persistence.SortByVisits | electron/main.ts:144 | the sort is a permutation ordered by descending visits |
| Persistence.InsertStable | electron/main.ts:144 | an insertion step keeps the relative order of entries with equal visits |
| Persistence.SortIsStable | electron/main.ts:144 | the sort is stable: entries with the same visit count keep their prior order |
| Persistence.InsertUnique | electron/main.ts:144 | inserting an entry for a new domain keeps domains unique |
| Persistence.SortKeepsDomains | electron/main.ts:144 | sorting keeps domains unique and the same set of domains |
| Persistence.Recorded | electron/main.ts:131-147 | recording a visit yields a list sorted by descending visits that is a permutation of the bumped list |
| Persistence.RecordCounts | electron/main.ts:131-147 | recording keeps domains unique, adds the domain, adds exactly one visit to it and leaves every other count alone |
| Persistence.SamePermutationCounts | electron/main.ts:144 | reordering changes no domain's count |
| Persistence.TwoRecordsOfNewDomain | electron/main.ts:131-147 | recording a new domain twice leaves it with two visits |
| Persistence.Store.constructor | electron/main.ts:66-81 | the files as found; the settings in memory are those of the file, else the defaults |
| Persistence.Store.GetPasswords | electron/main.ts:105 | the saved list, or empty without a file |
| Persistence.Store.SavePassword | electron/main.ts:106-113 | the file becomes `Upserted` of the list read, and the call reports success |
| Persistence.Store.DeletePassword | electron/main.ts:114-118 | the file becomes `Deleted` of the list read |
| Persistence.Store.GetSettings | electron/main.ts:121 | the settings held in memory |
| Persistence.Store.SaveSettings | electron/main.ts:123-127 | memory and file both become `Merge` of the old settings and the partial |
| Persistence.Store.GetStats | electron/main.ts:130 | the saved statistics, or empty without a file |
| Persistence.Store.RecordVisit | electron/main.ts:131-147 | refused without any write while statistics are off; otherwise the file becomes `Recorded` of the list read |
| Persistence.Store.BeforeRequest | electron/main.ts:86-93 | the redirect follows `RedirectFor` on the in-memory settings |
| Persistence.Store.BeforeSendHeaders | electron/main.ts:96-101 | the headers sent follow `HeadersFor` on the in-memory settings |
| BrowserArea.WebView.constructor | src/components/BrowserArea.tsx:79-82 | a view with the given history flags, devtools closed, no calls yet |
| BrowserArea.WebView.Call | src/components/BrowserArea.tsx:61-63 | a navigation call is logged, unless the view throws, in which case nothing changes |
| BrowserArea.WebView.OpenDevTools | src/components/BrowserArea.tsx:64-70 | devtools open and the call is logged, unless the view throws |
| BrowserArea.WebView.CloseDevTools | src/components/BrowserArea.tsx:64-67 | devtools close and the call is logged, unless the view throws |
| BrowserArea.CallsFor | src/components/BrowserArea.tsx:58-77 | at most one call per action: Back or Forward only when possible; Reload always; Stop never; DevTools toggles |
| BrowserArea.DisplayedTabs | src/components/BrowserArea.tsx:152-160 | the tabs drawn visible are exactly those with the active id |
| BrowserArea.OnlyActiveDisplayed | src/components/BrowserArea.tsx:152-160 | with unique ids, exactly one view is visible when the active id exists, and none otherwise |
| BrowserArea.SpinnerFollowsLoading | src/components/BrowserArea.tsx:93-101 | once a loading event sets the entry of tab `id`, that tab shows the spinner exactly when it is loading, active and not home (BrowserArea.tsx:154, 171); other tabs are unaffected |
| BrowserArea.BrowserArea.constructor | src/components/BrowserArea.tsx:31-32 | no views and no loading flags |
| BrowserArea.BrowserArea.Mount | src/components/BrowserArea.tsx:79-82 | a mounted view is registered under its tab id; an unmounted one changes nothing |
| BrowserArea.BrowserArea.Dispatch | src/components/BrowserArea.tsx:58-77 | the view of the action's tab receives `CallsFor` its state; an error thrown by a faulty view is caught and changes nothing; other views are untouched |
| BrowserArea.BrowserArea.OnStartLoading | src/components/BrowserArea.tsx:93-96 | the tab is marked loading and its history flags are reported as loading |
| BrowserArea.BrowserArea.OnStopLoading | src/components/BrowserArea.tsx:97-101 | the tab stops loading; its title and history flags are reported |
| BrowserArea.BrowserArea.OnNavigated | src/components/BrowserArea.tsx:103-106 | a navigation reports the history flags only when the tab is not loading |
| BrowserArea.BrowserArea.ActiveTabChanged | src/components/BrowserArea.tsx:43-55 | switching tabs reports that view's flags and loading state, or all false when that tab has no view |
| Uri.HexDigit | src/components/TopBar.tsx:65 | each digit below 16 maps to a hexadecimal character |
| Uri.Utf8 | src/components/TopBar.tsx:65 | one to four bytes per character, each below 256; a single byte exactly for ASCII, and that byte is the code |
| Uri.Escapes | src/components/TopBar.tsx:65 | three characters per byte, each `%` or a hex digit |
| Uri.Encode | src/components/TopBar.tsx:65 | every output character is kept, a `%` or a hex digit, and a string of kept characters is unchanged |
| Uri.EncodeConcat | src/components/TopBar.tsx:65 | encoding distributes over concatenation |
| Uri.EncodeURIComponent | src/components/TopBar.tsx:65 | the output has no `&`, `=`, `#`, `?` or space, and a string of unreserved characters passes unchanged |
| Uri.EncodeURI | src/components/ProfileModal.tsx:104 | only unreserved, reserved and `#` characters or escapes come out; such strings pass unchanged |
| Uri.SpaceEscape | src/components/Home.tsx:39 | a space is escaped as `%20` by both encoders |
| Uri.TwoByteEscape | src/components/TopBar.tsx:65 | `ü` is escaped as its two UTF-8 bytes, `%C3%BC` |
| ProfileModal.RowOf | src/components/ProfileModal.tsx:82-88 | a line is saved exactly when its first three comma fields are non-empty before trimming |
| ProfileModal.RowOfFields | src/components/ProfileModal.tsx:82-88 | three comma-free non-empty fields are saved trimmed, whatever follows a third comma |
| ProfileModal.ShortRowSkipped | src/components/ProfileModal.tsx:83 | a line with one or two fields is skipped |
| ProfileModal.BlankFieldSavedEmpty | src/components/ProfileModal.tsx:83-85 | an all-blank url passes the check and is saved as empty |
| ProfileModal.MissingUrlSkipped | src/components/ProfileModal.tsx:83 | a row with an empty url is skipped |
| ProfileModal.RowsSaved | src/components/ProfileModal.tsx:81-90 | no more rows are saved than there are lines |
| ProfileModal.RowsSavedConcat | src/components/ProfileModal.tsx:81-90 | a skipped row never stops the import: two blocks import as their concatenation |
| ProfileModal.RowsSavedSnoc | src/components/ProfileModal.tsx:81-90 | one more line adds its row, if it is saved |
| ProfileModal.RowsSavedStep | src/components/ProfileModal.tsx:81-90 | the loop's step adds the row of line i |
| ProfileModal.ImportRequests | src/components/ProfileModal.tsx:79-81 | fewer save requests than lines, since the header line is never imported |
| ProfileModal.HeaderIgnored | src/components/ProfileModal.tsx:81 | the first line's contents never matter |
| ProfileModal.ThreeRowImport | src/components/ProfileModal.tsx:79-90 | a header and three rows import each row independently and in order |
| ProfileModal.MiddleRowSkipped | src/components/ProfileModal.tsx:81-90 | a skipped middle row leaves the first and third, in order |
| ProfileModal.MissingUrlRowSkippedInImport | src/components/ProfileModal.tsx:79-90 | of three rows whose middle one lacks a url, exactly the first and third are saved, trimmed |
| ProfileModal.SavedAllSnoc | src/components/ProfileModal.tsx:84-88 | saving one more request upserts it onto the previous result |
| ProfileModal.ImportedPasswordStored | src/components/ProfileModal.tsx:84-88 | the last imported row's password is the one stored for that account |
| ProfileModal.RowTexts | src/components/ProfileModal.tsx:103 | one quoted row per entry, in order |
| ProfileModal.ExportLines | src/components/ProfileModal.tsx:100-103 | the export's lines are the header and then one row per entry (an empty line with no entries) |
| ProfileModal.ExportRows | src/components/ProfileModal.tsx:100-103 | a non-empty export splits into the header and then exactly one line per entry, in order |
| ProfileModal.ReimportEmpty | src/components/ProfileModal.tsx:79-103 | re-importing an empty export saves nothing |
| ProfileModal.ReimportNonEmpty | src/components/ProfileModal.tsx:79-103 | re-importing a non-empty export yields every entry, in order, with its fields still in quotes |
| ProfileModal.ImportOfLines | src/components/ProfileModal.tsx:79-81 | the import reads the lines after the first |
| ProfileModal.EmptyLineSkipped | src/components/ProfileModal.tsx:83 | an empty line is skipped |
| ProfileModal.QuotedRowsSaved | src/components/ProfileModal.tsx:82-103 | every exported row is imported, as the quoted fields |
| ProfileModal.QuotedRequests | src/components/ProfileModal.tsx:103 | one request per entry, each field wrapped in quotes |
| ProfileModal.QuotedRow | src/components/ProfileModal.tsx:82-103 | one exported row re-imports as its quoted fields |
| ProfileModal.QuoteFacts | src/components/ProfileModal.tsx:103 | a quoted comma-free field is comma-free, non-empty and not changed by trimming |
| ProfileModal.PrefixKept | src/components/ProfileModal.tsx:101-104 | encoding leaves the `data:` prefix untouched |
| ProfileModal.ExportUri | src/components/ProfileModal.tsx:100-104 | the link is the data prefix followed by the encoded CSV |
| ProfileModal.SettingsPartial | src/components/ProfileModal.tsx:67 | the saved object holds just the one key |
| ProfileModal.OneKeySave | src/components/ProfileModal.tsx:61-68 | a toggle changes only its key in the stored settings |
| ProfileModal.ToggledShown | src/components/ProfileModal.tsx:196 | clicking shows the entry unless it was shown, in which case it hides |
| ProfileModal.ToggleTwice | src/components/ProfileModal.tsx:196 | two clicks restore the hidden or shown state, or hide a different entry |
| ProfileModal.ProfileView.constructor | src/components/ProfileModal.tsx:61-68 | the toggles start as doNotTrack on, httpsOnly off and statistics on; no passwords; none shown |
| ProfileModal.ProfileView.UpdateSettings | src/components/ProfileModal.tsx:61-68 | the matching toggle changes at once, and the store's settings become the one-key merge |
| ProfileModal.ProfileView.ToggleShown | src/components/ProfileModal.tsx:196 | the shown id becomes `ToggledShown` |
| ProfileModal.ProfileView.SaveRow | src/components/ProfileModal.tsx:84-89 | one more imported row is saved in the store |
| ProfileModal.ProfileView.Import | src/components/ProfileModal.tsx:72-98 | the count is the number of saved rows; the store holds those rows saved in order; the list shown is re-read; nothing is written when no row is saved |
| ProfileModal.ProfileView.Export | src/components/ProfileModal.tsx:100-111 | the link is `ExportUri` of the shown passwords |
| TopBar.Target | src/components/TopBar.tsx:46-68 | Enter with a non-blank trimmed text navigates: an address goes as-is with a protocol, else with `https://`; any other text is searched with the engine and encoded |
| TopBar.TrimIdempotent | src/components/TopBar.tsx:48 | trimming twice is trimming once |
| TopBar.TargetOfTrimmed | src/components/TopBar.tsx:48 | surrounding white space makes no difference |
| TopBar.TargetIsAbsolute | src/components/TopBar.tsx:52-66 | with an engine that has a protocol, every navigation target has one |
| TopBar.SchemeKept | src/components/TopBar.tsx:64-65 | a search address starts with the engine's protocol, since the encoded query only follows it |
| TopBar.DefaultEngineHasProtocol | src/components/TopBar.tsx:35 | the default engine url starts with `https://` |
| TopBar.SearchIsOneParameter | src/components/TopBar.tsx:63-66 | a search's encoded text contains no `&`, `=`, `#`, `?` or space |
| TopBar.LabelsEndWithDot | src/components/TopBar.tsx:54 | the domain labels part ends with a dot |
| TopBar.DomainHasDot | src/components/TopBar.tsx:54 | every domain contains a dot |
| TopBar.IpHasDot | src/components/TopBar.tsx:56 | every IP address contains a dot |
| TopBar.WordWithoutDotIsSearched | src/components/TopBar.tsx:52-66 | text with no dot, no protocol and not starting with localhost is searched |
| TopBar.HostGetsHttps | src/components/TopBar.tsx:58-62 | an address without a protocol gets `https://` |
| TopBar.ExampleLabels | src/components/TopBar.tsx:54 | `example.` is a labels part |
| TopBar.ExampleIsDomain | src/components/TopBar.tsx:54 | `example.com` matches the domain pattern |
| TopBar.DigitStartHasNoProtocol | src/components/TopBar.tsx:52 | a text starting with a digit has no protocol |
| TopBar.DomainGetsHttps | src/components/TopBar.tsx:54-62 | typing `example.com` opens `https://example.com` |
| TopBar.LastGroup | src/components/TopBar.tsx:56 | one to three digits form the last group of an address |
| TopBar.GroupStep | src/components/TopBar.tsx:56 | a group and a dot before n groups make n+1 groups |
| TopBar.FourGroups | src/components/TopBar.tsx:56 | four dot-separated groups of one to three digits form an IP address |
| TopBar.IpNotRangeChecked | src/components/TopBar.tsx:56-62 | `999.999.999.999` counts as an IP address and is opened over https |
| TopBar.DottedQuadGetsHttps | src/components/TopBar.tsx:56-62 | any four groups of one to three digits joined by dots are an IP address and are opened with `https://` in front |
| TopBar.NoSchemeLetterStart | src/components/TopBar.tsx:52 | a text whose first character is neither `h` nor `m` has no protocol |
| TopBar.LocalhostWithPort | src/components/TopBar.tsx:55 | `localhost:3000/app` matches the localhost pattern |
| TopBar.ShortTopLevelLabelIsNoDomain | src/components/TopBar.tsx:54 | a one-letter top-level label is not a domain |
| TopBar.Buttons | src/components/TopBar.tsx:76-78 | back and forward are disabled exactly when the view cannot go that way; the reload icon spins exactly while loading |
| Translations.NoEmptyEntry | src/translations.ts:3-104 | no entry of either table is empty |
| Translations.Lookup | src/translations.ts:111 | the language's entry, else English, else the key itself |
| Translations.LookupIsEntry | src/translations.ts:111 | since no entry is empty, the lookup is the language's own entry |
| Translations.Translate | src/translations.ts:109-119 | the text is the looked-up entry with each parameter's first placeholder replaced, in order; without parameters it is the table entry |
| Translations.NoBraceNoPlaceholder | src/translations.ts:114 | a text without `{` holds no placeholder |
| Translations.AbsentPlaceholdersKeepText | src/translations.ts:112-116 | parameters whose placeholders are absent leave the text unchanged |
| Translations.DefaultValueIgnored | src/components/TabContextMenu.tsx:91-101 | the `defaultValue` parameter of the pin, unpin, duplicate and close-others labels has no effect |
| Translations.FirstPlaceholderReplaced | src/translations.ts:114 | the first placeholder is replaced by the value, the text around it kept |
| Translations.SingleParameter | src/translations.ts:112-116 | one parameter is one replacement |
| Translations.EnglishSearchPlaceholder | src/translations.ts:5 | the English search placeholder reads "Search with" followed by the engine name and "..." |
| Translations.TurkishSearchPlaceholder | src/translations.ts:57 | the Turkish search placeholder reads the engine name followed by " ile ara..." |
| Home.EnginesDistinct | src/components/Home.tsx:14-19 | four engines, with distinct ids and distinct urls |
| Home.FindByUrl | src/components/Home.tsx:24 | `find` by url: the first engine with that url, none exactly when no engine has it |
| Home.EachEngineFoundByUrl | src/components/Home.tsx:24 | every engine is found by its own url |
| Home.InitialEngine | src/components/Home.tsx:24 | the engine whose url is the default, else Google |
| Home.DefaultChanged | src/components/Home.tsx:28-33 | the selection follows a non-empty default that names an engine, and stays otherwise |
| Home.SelectionStaysInTable | src/components/Home.tsx:28-33 | the selection is always an engine of the table |
| Home.SettingsChoiceShownOnHome | src/components/Home.tsx:24-33 | an engine chosen in settings is the one the home page selects |
| Home.HandleSearch | src/components/Home.tsx:36-41 | a blank query submits nothing; otherwise the engine url followed by the encoded, untrimmed query |
| Home.LeadingSpaceKept | src/components/Home.tsx:38-39 | a leading space is sent as `%20` |
| SearchOverlay.Reset | src/components/SearchOverlay.tsx:25-32 | opening clears the query and takes the default engine; while closed nothing is reset |
| SearchOverlay.ActiveEngine | src/components/SearchOverlay.tsx:34 | the engine whose url is active, else the first engine |
| SearchOverlay.HandleKeyDown | src/components/SearchOverlay.tsx:36-49 | Enter with a non-blank query navigates with the active engine, or the Google fallback without one; navigating or Escape closes |
| SearchOverlay.OnlyEnterAndEscapeAct | src/components/SearchOverlay.tsx:36-49 | Escape only closes; any other key but Enter does nothing |
| SearchOverlay.EnterAfterOpenDoesNothing | src/components/SearchOverlay.tsx:25-49 | right after opening, Enter does nothing |
| SearchOverlay.PlaceholderNamesEngine | src/components/SearchOverlay.tsx:92 | the placeholder names the active engine, in each language |
| SearchOverlay.UnknownUrlShowsGoogle | src/components/SearchOverlay.tsx:34-39 | an unknown engine url shows Google's name but searches with that url |
| Downloads.WithStarted | src/components/DownloadsPanel.tsx:23-25 | the new download goes in front, still downloading; the rest is unchanged |
| Downloads.WithCompleted | src/components/DownloadsPanel.tsx:26-28 | every entry with that file name is completed; the others, the length and the order are kept |
| Downloads.UnknownFileIsNoOp | src/components/DownloadsPanel.tsx:26-28 | an unknown file name changes nothing |
| Downloads.CompleteIdempotent | src/components/DownloadsPanel.tsx:26-28 | completing twice is completing once |
| Downloads.NeverFailed | src/components/DownloadsPanel.tsx:8-28 | no sequence of messages produces a failed download, and the list holds one entry per started message |
| SettingsModal.ShortcutChanged | src/components/SettingsModal.tsx:43-45 | the shortcuts with that id get the new keys and keep their id and label; the others, the length and the order are kept |
| SettingsModal.LastEditWins | src/components/SettingsModal.tsx:43-45 | a second edit overwrites the first |
| SettingsModal.EditUndone | src/components/SettingsModal.tsx:43-45 | typing the old keys back restores the list |
| SettingsModal.SliderValue | src/components/SettingsModal.tsx:182 | a range input's value is clamped into its bounds, and a value already within them is kept |
| SettingsModal.BlurLevel | src/components/SettingsModal.tsx:182 | the blur is between 0 and 40 |
| SettingsModal.BorderRadius | src/components/SettingsModal.tsx:190 | the radius is between 0 and 30 |
| SettingsModal.ChosenEngineHighlighted | src/components/SettingsModal.tsx:200-210 | choosing an engine highlights it and only it |

## Left out

- I/O and processes:
  - The filesystem and JSON parsing are not modelled. A stored file is
    `Option` of its parsed contents; a file that parses to something else is
    not represented.
  - Inter-process invocation is not modelled. Each `ipcRenderer.invoke` is a
    direct call on `Persistence.Store`, with no asynchrony or interleaving.
  - The main process's download handler and its messages are not modelled.
    The downloads list takes the message contents as its inputs.
- Parameters and timing:
  - `Date.now` ids and timestamps are parameters (`freshId`, `ids`, `now`).
    Freshness is a precondition where the source assumes it.
  - `new URL(url).hostname` is a function parameter `hostOf` of
    `App.AppState.Navigate`. The URL parser is not part of this model.
  - The timers are not modelled. These are the timeout that clears a
    navigation action and the overlay's focus delay. `ClearNavAction` stands
    for the timeout firing.
- React itself: rendering, styles, effect timing, render batching and stale
  closures are not modelled. When one key press issues two navigation
  actions, the model keeps the last as pending and returns the list of both.
- The address bar's echo of the current url into its input (the effect in
  TopBar.tsx) is not modelled; `App.AddressBarUrl` states what is passed in.
- Common.ToLower: lowers ASCII letters only, not full Unicode case mapping.
  Shortcut keys and url schemes are ASCII.
- Common.ReplaceFirst: does not interpret `$` patterns in the replacement
  string. Translation values do not use them.
- Translations.Translate: parameters are an ordered sequence rather than an
  object, so the order of `Object.keys` is the order given.
- Translations.Lookup: the key set is an enumeration. Both tables therefore
  have the same keys by construction, and a missing key cannot arise.
- Persistence.SortByVisits: the stable sort is a function on a sequence, not
  an in-place array sort. The sorting algorithm of the JavaScript engine is
  not modelled, only the stable-sort result it promises.
- BrowserArea.BrowserArea.Mount: registers a view once. The source passes
  an inline ref callback, which React calls again on every render, so the
  event listeners are attached again each time; repeated listeners are not
  modelled.
- BrowserArea.WebView: navigation queries (`canGoBack`, `getTitle`) do not
  throw; only the navigation calls of a faulty view fail.
- SettingsModal.SliderValue: the browser's step rounding is not modelled;
  the slider step is 1.
- Uri.EncodeURIComponent: lone surrogates cannot occur, because Dafny
  characters are Unicode scalar values, so `URIError` is not modelled.
