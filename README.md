# Power Link: a verified model of the saved-link bookkeeping

Power Link is a browser extension with two parts:

- **The popup** collects metadata (title, URL, domain, thumbnail, YouTube channel) from open tabs. It stores the records in the `savedLinks` collection of the extension's local storage.
- **The list page** shows that collection. It closes, deletes and drag-reorders entries. It can also consolidate all open tabs: it sorts them by domain, channel and title, and moves them into one new window, or into one new window per domain.

This project models the core of both parts in Dafny and proves what each operation promises.

- `resolver.dfy` (module `Resolver`) covers the popup's per-tab resolution chain. The steps are: URL parse, title normalisation, baseline record, restricted pages, in-page probe, network fallback, and aggregation of the settled results. It is a pure function of the tab and of oracles for the URL parser, the probe outcome and the HTTP outcome.
- `merge.dfy` (module `Merge`) covers the overwrite and append merge of `saveLinksToStorage` as the function `MergeLinks`. The imperative save against the store is the method `SaveLinksToStorage`.
- `legacy_popup.dfy` (module `LegacyPopup`) covers the older top-level popup. It has a sequential extraction loop, checkbox ids that may be `NaN`, the raw hostname as domain, and a save without a profile name.
- `sortkeys.dfy` (module `SortKeys`) covers the list page's URL-to-channel heuristic and its two comparators. `localeCompare` is an abstract collation. The comparators are proved to be total preorders when the collation is strict.
- `consolidation.dfy` (module `Consolidation`) covers the consolidation plan:
  - channel precedence and the write-back into the records;
  - grouping of the sorted tabs by domain;
  - the window-id relabelling.
- `list_page.dfy` (module `ListPage`) covers the list page itself. The class `LinkList` holds the page's `savedLinks`, the store and the browser host. Its methods are the close, delete, drop and consolidation handlers.
- `store.dfy` (class `Store.Storage`) is `chrome.storage.local`.
- `records.dfy`, `jsstring.dfy`, `seqs.dfy`, `sorting.dfy` and `wrappers.dfy` are the records and the JavaScript string and array primitives the core uses. `Sorting.SortBy` is a stable insertion sort standing for `Array.prototype.sort`.

Some behaviours of the code that a reader might not expect, and which the model keeps:

- **Unparsable tabs.** A tab whose URL `new URL` rejects has its task rejected (src/popup/popup.js:71), and aggregation drops it (src/popup/popup.js:152-154). `Resolver.ResolveTab` returns `Rejected` for it, and `Resolver.ExtractionCount` counts only parsable tabs.
- **Empty domain.** The domain is the parser's hostname (src/popup/popup.js:71), which may be empty; nothing in the code replaces an empty one.
- **Record comparator.** The comparator over stored records (src/list/list.js:542-552) returns `undefined` for equal domains other than exactly `youtube.com`. The sort reads that as 0. `SortKeys.CompareSavedLinks` makes it an explicit tie, and the stable `SortBy` keeps such records in their previous order (`SortKeys.SameDomainKeepsOrder`).
- **Two YouTube tests.** The tab comparator tests `includes('youtube.com')`. The record comparator tests equality with `youtube.com`.

## Model

| member | source | states |
|---|---|---|
| Resolver.NormalizeTitle | src/popup/popup.js:75 | the result is a suffix of the title; it is shorter exactly when the title starts with "(digits)"; what is removed is that marker plus all following white space |
| Resolver.PathSegment | src/popup/popup.js:97-99 | `pathname.split('/')[1]`: the text after the first '/' up to the next '/' or the end of the path, with no '/' in it |
| Resolver.PathSegmentHandle | src/popup/popup.js:98-99 | for a path starting "/@", the channel taken from the path is non-empty and starts with '@' |
| Resolver.Baseline | src/popup/popup.js:72-100 | url, raw hostname, tab and window ids come from the tab; an empty title becomes the placeholder; thumbnail is null exactly in quick mode, else the favicon, or the ytimg URL for a YouTube host with a truthy `v`; channel is set exactly when the host is YouTube and the path contains "/@", and it is then the path segment after the first '/' (`Resolver.PathSegment`) |
| Resolver.ExtractMetadata | src/popup/popup.js:411-417 | the probe's record: href and title of the page; the domain is the hostname with its first "www." removed, unchanged when there is none; thumbnail null exactly in quick mode; no channel off YouTube; no tab or window id |
| Resolver.FetchYouTubeMetadata | src/popup/popup.js:226-255 | never fails: a network error gives no channel; a truthy author wins; any channel returned is the author or one of the two fields of the parsed initial data |
| Resolver.ResolveTab | src/popup/popup.js:68-146 | rejected exactly when the URL does not parse; restricted URLs give exactly the baseline; a probe result replaces the baseline with the tab's own ids forced; a falsy probe gives the baseline; a thrown probe gives the baseline, with the fetched channel merged only on a YouTube URL and only when truthy |
| Resolver.RestrictedIgnoresPage | src/popup/popup.js:110-117 | for a restricted URL the result does not depend on the probe or the network |
| Resolver.FetchOnlyAfterThrow | src/popup/popup.js:125-145 | the network outcome matters only when the probe threw on a YouTube URL |
| Resolver.FallbackOnlySetsChannel | src/popup/popup.js:129-145 | after a thrown probe the result equals the baseline in every field but the channel, and a changed channel is truthy |
| Resolver.Settle | src/popup/popup.js:68-149 | one settled outcome per tab, each the resolution of that tab |
| Resolver.Aggregate | src/popup/popup.js:152-154 | keeps exactly the fulfilled values |
| Resolver.AggregateAppend | src/popup/popup.js:152-154 | aggregation keeps input order: it distributes over concatenation |
| Resolver.PerformExtraction | src/popup/popup.js:68-154 | no result exactly when there are no target tabs; at most one record per tab |
| Resolver.ExtractionCount | src/popup/popup.js:68-154 | the number of records equals the number of tabs whose URL parses |
| Resolver.ExtractionComplete | src/popup/popup.js:68-154 | every parsable tab's resolution is in the result, and every record carries the ids of a parsable tab |
| Resolver.TargetTabs | src/popup/popup.js:158-170 | the current scope gives the active tab or nothing; otherwise exactly the open tabs whose id is checked |
| Resolver.TargetTabsAppend | src/popup/popup.js:169 | the selection keeps the host's order: it distributes over concatenation of the open tabs |
| Resolver.TargetTabsCounts | src/popup/popup.js:169 | a checked tab is selected as often as the host lists it, an unchecked one never |
| Merge.Stamped | src/popup/popup.js:303-307 | one stamped record per input, in order, with its metadata unchanged and the clock's id and time |
| Merge.MergeLinks | src/popup/popup.js:301-321 | overwrite: the metadata of the result is exactly the incoming records; append: no write exactly when every incoming URL is already stored; otherwise the stored list is an unchanged prefix followed by the incoming records with novel URLs, in order |
| Merge.AppendStoresEveryUrl | src/popup/popup.js:309-320 | after an append every old and every incoming URL is stored |
| Merge.AppendIdempotent | src/popup/popup.js:309-313 | a second append of the same batch finds nothing new and does not write |
| Merge.AppendMultiplicity | src/popup/popup.js:310-311 | an appended record occurs as often as in the batch when its URL is novel, never otherwise: duplicates inside one batch are kept |
| Merge.FilterDistinctUrls | src/popup/popup.js:311 | filtering keeps URLs distinct |
| Merge.AppendKeepsUrlsUnique | src/popup/popup.js:309-320 | if the stored list and the batch each have distinct URLs, so does the appended list |
| Merge.KnownUrlScenario | src/popup/popup.js:313 | a batch whose only URL is already stored is not written |
| Merge.SaveLinksToStorage | src/popup/popup.js:297-328 | on success the store holds the merge of the old list and the profile name, defaulting to the built-in one; nothing new means an append and no write; on any failure the store is unchanged |
| LegacyPopup.GetTargetTabIds | popup.js:132-139 | the current scope yields at most one id, the active tab's; otherwise the checked ids in order |
| LegacyPopup.ExtractMetadata | popup.js:191-209 | the domain is the raw hostname; thumbnail null exactly in quick mode, the ytimg URL for YouTube with a truthy `v`, else the page image; no channel |
| LegacyPopup.ProbesAgreeButDomain | popup.js:191-209 | the two probes differ only in the "www." stripping and the channel, and agree outright on other hosts |
| LegacyPopup.Contribution | popup.js:50-64 | a tab contributes one record exactly when its id is a number and the probe returned a result |
| LegacyPopup.CollectedAppend | popup.js:50-65 | collection distributes over concatenation, so results keep tab-id order |
| LegacyPopup.SkippedTabs | popup.js:51-63 | a `NaN` id or a failing probe is skipped without affecting the other tabs |
| LegacyPopup.CollectedFromProbes | popup.js:50-65 | every result is the record of some numeric id whose probe ran |
| LegacyPopup.PerformExtraction | popup.js:39-67 | no result exactly when there are no ids; otherwise the loop's results equal `Collected` |
| LegacyPopup.SaveLinksToStorage | popup.js:158-189 | on success the store holds the merge; nothing new means an append and no write; the profile name is never written; on failure the list is unchanged |
| SortKeys.ExtractYouTubeChannel | src/list/list.js:400-421 | "" for unparsable or non-YouTube URLs; else the "@handle" segment, "ID:" plus the first 8 characters of a "/channel/" id plus "...", or the second segment of a `c`/`user`/`v` path or ""; the result never holds a '/' |
| SortKeys.DisplayKey | src/list/list.js:532-533 | the bare title when the channel is empty or "YouTube", else "(", the channel, ") " and the title, in that order |
| SortKeys.TabOrderIsTotalPreorder | src/list/list.js:527-539 | under a strict collation the tab comparator is antisymmetric and transitive |
| SortKeys.LinkOrderIsTotalPreorder | src/list/list.js:542-552 | under a strict collation the record comparator is antisymmetric and transitive, with `undefined` read as a tie |
| SortKeys.SameDomainKeepsOrder | src/list/list.js:542-552 | records of one non-YouTube domain tie and keep their relative order through the sort |
| SortKeys.LengthCollationBreaksTabOrder | src/list/list.js:527-539 | a collation that ties different strings makes the tab comparator intransitive, so strictness is needed |
| SortKeys.DomainFirstScenario | src/list/list.js:528 | tabs of different domains sort by domain whatever their titles |
| SortKeys.ChannelKeyScenario | src/list/list.js:531-534 | two YouTube tabs sort by "(channel) title" |
| Consolidation.LiveChannels | src/list/list.js:431-499 | the live map holds exactly the YouTube tabs with a truthy probe answer: every key is the id of a YouTube tab and maps to that id's non-empty answer |
| Consolidation.FinalChannel | src/list/list.js:508 | live channel if truthy, else the stored channel if truthy, else the URL heuristic; empty exactly when all three are |
| Consolidation.FindByTab | src/list/list.js:503 | the first record with the tab's id, or none |
| Consolidation.FindByTabOrUrl | src/list/list.js:511 | the first record with the tab's id or URL, or none |
| Consolidation.Href | src/list/list.js:504 | an empty tab URL is replaced by "about:blank" |
| Consolidation.EnrichTab | src/list/list.js:502-524 | fails exactly when the URL does not parse; the item carries the tab's fields, the hostname without its first "www.", and the channel by precedence; only the first record matching by id or URL changes, only its channel, and only to a non-empty channel; when such a record exists and the channel is non-empty, that record does get the channel |
| Consolidation.EnrichLastWrite | src/list/list.js:501-514 | after all tabs, a record ends with the channel of the last tab whose first match it is and whose channel is non-empty |
| Consolidation.EnrichUnwritten | src/list/list.js:501-514 | a record that is no tab's first match with a non-empty channel comes out of the enrichment unchanged |
| Consolidation.EnrichOnlyChannels | src/list/list.js:510-514 | building the items changes the records' channels and nothing else |
| Consolidation.EnrichItemsFollowTabs | src/list/list.js:502-524 | item k is built from tab k |
| Consolidation.EnrichAbortsOnBadUrl | src/list/list.js:504 | the map throws exactly when some tab's URL does not parse |
| Consolidation.EnrichAbortPersists | src/list/list.js:502-524 | after a throw the later tabs change nothing, and channels written before it stay written |
| Consolidation.FirstOccurrencesDistinct | src/list/list.js:569-575 | the domain order has no duplicates |
| Consolidation.GroupByDomain | src/list/list.js:569-573 | the domain keys in first-occurrence order, and each group is exactly the ids of its domain in sorted order |
| Consolidation.IdsInMember | src/list/list.js:570-573 | an id is in a domain's group exactly when an item with that id has that domain |
| Consolidation.GroupsDisjoint | src/list/list.js:569-573 | with distinct tab ids, different domains' groups share no id |
| Consolidation.GroupsPartition | src/list/list.js:554-573 | the groups, concatenated in domain order, are a permutation of the sorted tab ids |
| Consolidation.FirstOccurrenceOrder | src/list/list.js:575 | the groups appear in the order their domains first occur |
| Consolidation.GroupsInDomainOrder | src/list/list.js:527-575 | after the tab sort, under a strict collation, the domains of the groups are strictly increasing |
| Consolidation.SortKeepsIdsDistinct | src/list/list.js:527 | sorting keeps tab ids distinct |
| Consolidation.Relabel | src/list/list.js:583-585 | a record whose tab is in the group gets the new window id; any other is unchanged; only the window id changes |
| Consolidation.RelabelKeepsOrder | src/list/list.js:542-585 | relabelling keeps the sorted record list sorted |
| Consolidation.RelabelGroupsHit | src/list/list.js:575-586 | a record in exactly one group ends with that group's window id |
| ListPage.WithoutIdsCounts | src/list/list.js:218-253 | a record is removed exactly when its id is listed; every other record keeps its multiplicity |
| ListPage.WithoutIdsIdempotent | src/list/list.js:218-225 | removing the same ids twice removes nothing more |
| ListPage.FindId | src/list/list.js:358-378 | the first record with the id, or none |
| ListPage.InWindow | src/list/list.js:384 | only the window id changes, to the given one |
| ListPage.GroupMoves | src/list/list.js:575-580 | one move per group, to its window at index -1 |
| ListPage.ConsolidationKeepsIds | src/list/list.js:502-589 | a completed consolidation keeps the multiset of record ids |
| ListPage.StoppedKeepsIds | src/list/list.js:502-589 | a consolidation that failed partway keeps the multiset of record ids too |
| ListPage.ConsolidationSortsLinks | src/list/list.js:542-589 | a completed consolidation leaves the records sorted by the record comparator |
| ListPage.EnrichedIdsDistinct | src/list/list.js:502-524 | distinct tabs give items with distinct ids |
| ListPage.SeparateModeWindows | src/list/list.js:568-586 | in separate mode a record whose tab is in domain group j ends in window j |
| ListPage.UnmovedKeepWindow | src/list/list.js:564-585 | a record whose tab is in no group keeps its sorted value, window id included |
| ListPage.Host.MoveTabs | src/list/list.js:374 | a successful move is logged; a failed one changes nothing |
| ListPage.Host.RemoveTab | src/list/list.js:215 | a successful close is logged; a failed one changes nothing |
| ListPage.Host.CreateWindow | src/list/list.js:576 | a window that opens is appended to the window log; moves and closes are untouched |
| ListPage.BlanksAreAutoTabs | src/list/list.js:577-579 | the tabs the consolidation may close are exactly the blank tabs the new windows came with |
| ListPage.LinkList.CloseTab | src/list/list.js:212-230 | the record is removed on the success and the failure branch alike; the store follows unless the write failed; a tab is closed only when its id is truthy |
| ListPage.LinkList.DeleteSelected | src/list/list.js:241-262 | no selection and a declined confirmation change nothing; otherwise exactly the selected ids are removed, order kept; the store follows only on success |
| ListPage.LinkList.HandleDrop | src/list/list.js:351-393 | a same-row drop and a record without a tab refuse; a failed lookup or move leaves the list as it was; on success one move of the dragged tab, and the dragged record, relabelled to the target window, sits at the target's old index with every other record in order |
| ListPage.LinkList.AssignWindow | src/list/list.js:583-585 | every record is relabelled for the group and window |
| ListPage.LinkList.BuildSortableItems | src/list/list.js:502-524 | the loop's items and records equal `Enrich`, including the records' state when it throws |
| ListPage.LinkList.MoveGroup | src/list/list.js:576-585 | on success one move of the group to a new window at index -1 and the group's records relabelled; on failure the records are unchanged; at most one window is opened, and the only tab closed is that window's blank tab, on success only |
| ListPage.LinkList.MoveGroups | src/list/list.js:568-586 | on success one move per domain group in order, and each record relabelled by every group; on a failure the groups before it are moved and relabelled, the failing group is moved at most once and not relabelled, and no later group is touched; only window ids ever change; one window is opened per completed group (plus at most one for the failing group), and only the completed groups' blank tabs are closed |
| ListPage.LinkList.MovePhase | src/list/list.js:555-586 | the single mode moves all sorted tabs as one group, the separate mode each domain's group; on success every group is moved and relabelled, on failure the completed groups only; only the completed groups' blank tabs are closed |
| ListPage.LinkList.SortTabs | src/list/list.js:423-596 | a failed query fails; the status is "no tabs" exactly when the query returns none, and then nothing changes; an unparsable tab aborts with only the written-back channels and no move; the store is written only on success, which is the enriched, sorted, moved and relabelled outcome; a failed move stops with the enriched, sorted records relabelled for the completed groups only, at most one move of the failing group and none of the later ones; no tab other than a new window's blank tab is ever closed |
| Sorting.SortBySorted | src/list/list.js:527-552 | the sort's result is sorted under a total preorder |
| Sorting.SortByStable | src/list/list.js:542-552 | the sort keeps the relative order of tied elements |
| Sorting.SortBy | src/list/list.js:527-552 | the sort is a permutation of its input |
| Sorting.SortBySortedIsIdentity | src/list/list.js:542-552 | sorting an already sorted list changes nothing |

## Left out

- UI: rendering, toasts, checkbox wiring, view toggles, clipboard, and the Excel and HTML export.
- The in-page DOM selector chains and the regular-expression and JSON matching inside the fetch. The probe's answer (`Resolver.Page`) and the HTTP outcome (`Resolver.HttpOutcome`) are parameters.
- URL parsing is an oracle (`Records.UrlParser`); `URLSearchParams` is its `v` field.
- `chrome.*` and `fetch` are oracles, or methods with a nondeterministic success (`Store.Storage`, `ListPage.Host`). `ListPage.Host.GetTab` promises nothing, and `ListPage.Host.CreateWindow` promises only that an opened window is logged.
- The tab query of the consolidation is a parameter of `ListPage.LinkList.SortTabs`.
- Concurrency. `Promise.allSettled` is a sequential map. A storage change from another page during a handler is not modelled.
- Record ids and timestamps come from a clock oracle (`Merge.Clock`). The code does not make `Date.now() + random` unique, and the model does not assume it.
- Records are values, so object aliasing is not modelled. One object stored twice in the list is not modelled either.
- Resolver.PerformExtraction: the per-tab tasks run in sequence, not concurrently.
- ListPage.SeparateModeWindows: assumes the browser's tab ids are distinct (`DistinctTabIds`).
- SortKeys.ExtractYouTubeChannel: takes 8 characters where `slice(0, 8)` takes 8 UTF-16 code units.
- SortKeys.IsStrictCollation: the preorder and ordering lemmas assume a collation that ties only equal strings. A real `localeCompare` may tie distinct strings, and `SortKeys.LengthCollationBreaksTabOrder` shows the comparator is then not transitive.
- Sorting.SortBy: a stable insertion sort. The engine's sort is only promised stable; its order of comparisons is not modelled.
- Object key order. The domain groups keep insertion order. A real object lists integer-like keys first, and a key such as "constructor" would find the prototype's member.
- ListPage.LinkList.SortTabs: the `focused` flag of the new window is not modelled, nor a window that comes back without a tab list. A missing first tab is `Window.autoTab == None`.
- ListPage.LinkList.CloseTab: a failing second write in the catch is an unhandled rejection in the code. Here it is the `CloseFailed` status with the page's list already filtered.
- The root list.js, both background scripts, the content script and the browser test are not part of this model: they are rendering, an install log and test harness code.
