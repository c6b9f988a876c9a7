# Instagram follower tracker: a Dafny model

This project models the core of a browser extension that records who follows
an Instagram account and reports how that list changes over time.

- **Content script.** The content script (`content-scripts/follower-scraper.js`)
  does the following:
  - opens the followers dialog of a profile;
  - scrolls its virtualised list and harvests the rows visible before each scroll;
  - turns picture URLs into data URLs, in batches of ten;
  - reports the collected followers.
- **Service worker.** The service worker (`background/service-worker.js`):
  - routes the extension's messages;
  - builds a snapshot from a finished scan (`background/follower-tracker.js`);
  - keeps the ten newest snapshots in storage, newest first, and upgrades
    old-format records as it reads them (`background/storage-manager.js`);
  - answers a diff request with the followers lost, gained and kept between two
    snapshots.
- **Popup.** The popup does the following:
  - escapes text for HTML;
  - filters a snapshot's followers by a search text;
  - checks a compare request;
  - drives the scan button (`popup/popup-followers.js`);
  - exports the stored snapshots as JSON and reports an import's outcome
    (`popup/popup-export-import.js`).
- **Validation.** Imported files are validated snapshot by snapshot
  (`shared/snapshot-schema.js`).
- **Scroll helpers.** The generic helpers live in
  `content-scripts/utils/scroll-automation.js`:
  - a scroll loop that gives up after ten stale scrolls or three bottom hits;
  - a search for the dialog's scrollable container.

## How the model is built

The modules follow the source files one to one. They share three helper modules:
- `Wrappers`: `Option` and `Result`;
- `Text`: string order, lower-casing, trimming and decimal printing;
- `Snapshots`: the follower and snapshot records, and `MAX_SNAPSHOTS = 10`.
  A stored record (`Snapshots.Snapshot`) has the fields a JavaScript object may lack
  (`date`, `scannedUser`, `followers`, legacy `usernames`) as options.

Where the source keeps state, the model keeps it too:
- The storage key is the `snapshots` field of `StorageManager.SnapshotStore`.
- The scraper's flags and `collectedFollowers` are fields of `FollowerScraper.Scraper`:
  - `collectedFollowers` is a `map` plus the key order that JavaScript's `Map`
    remembers.
- The popup's `_isScanning` and detail list are fields of `PopupFollowers.FollowersTab`.

Loops stay loops, each proved against a function that specifies it:
- the scroll loops (`ScrollAutomation.AutoScroll` against the step function,
  `FollowerScraper.Scraper.ScrollVirtualizedList` against `Scrolled` and
  `ScrolledOrder`, the fold of one extraction per pass);
- the diff buckets;
- the picture batches;
- the validation loops.

The browser is replaced by observations the caller supplies:
- the links visible on each scroll pass;
- the scroll positions read;
- the cancels that arrive during a wait;
- the result of each picture fetch;
- the active tab;
- the clock.

A loop driven by such a sequence also stops when the sequence runs out. That stop is an artifact of the model; the contracts of those loops name it as a separate case.

Strings are `seq<char>`, one element per Unicode code point. `localeCompare` is
modelled as plain code-point lexicographic order (`Text.Less`). Where the source
measures a string's JavaScript `length`, the model counts UTF-16 code units
(`Text.Utf16Length`). The model proves that this order is a strict
total order.

## Model

| member | source | states |
|---|---|---|
| ServiceWorker.ImportFallsThrough | background/service-worker.js:15-33 | An IMPORT_SNAPSHOTS message matches none of the router's cases and falls to the default "Unknown message type" branch. |
| ServiceWorker.FindByTimestamp | background/service-worker.js:66-67 | `find` comes back empty exactly when no snapshot has the timestamp. Otherwise it returns the first snapshot that has it. |
| ServiceWorker.ScanFollowersReply | background/service-worker.js:36-49 | The reply is `started` exactly when there is an active tab whose URL contains "instagram.com". Otherwise it is the navigate-first error. |
| ServiceWorker.HandleGetDiff | background/service-worker.js:64-74 | If either timestamp is missing from the migrated store, the reply is "One or both snapshots not found.". Otherwise the reply is the diff of the first snapshot with each timestamp. A snapshot without followers makes computeDiff throw. |
| ServiceWorker.HandleScanComplete | background/service-worker.js:51-62 | The snapshot is built from the message's followers, with scannedUser defaulting to "". It is saved at the head of the store. The reply carries the new list length, which is between 1 and MAX_SNAPSHOTS. A message without followers throws and leaves the store alone. |
| ServiceWorker.HandleMessage | background/service-worker.js:14-34 | Each message type gets its handler's reply: <br>- an unknown type is answered with "Unknown message type: " followed by the type; <br>- a scan-complete message without followers throws and leaves the store as it was; <br>- a scan-complete message with followers stores the snapshot built from them (the scanned user defaulting to "") and is answered with that snapshot and the new stored count, between 1 and 10. <br>Only the scan-complete and delete types change the store. |
| ServiceWorker.DeleteAbsentIsNoOp | background/storage-manager.js:35-42 | Deleting a timestamp the lookup cannot find leaves the stored list exactly as it was. |
| ServiceWorker.SavedSnapshotIsFound | background/service-worker.js:51-67 | A snapshot just saved is the one a later diff lookup finds for its timestamp. It shadows any older entry with the same timestamp. |
| StorageManager.SnapshotStore.SaveSnapshot | background/storage-manager.js:4-16 | The persisted list, which is also the returned list, is the new snapshot in front of the old list, cut to MAX_SNAPSHOTS. |
| StorageManager.SnapshotStore.GetSnapshots | background/storage-manager.js:18-33 | Returns every stored record upgraded by the legacy migration, in stored order. The store is not changed. |
| StorageManager.SnapshotStore.DeleteSnapshot | background/storage-manager.js:35-42 | The persisted list, which is also the returned list, is the old list without the entries that have the timestamp. |
| StorageManager.SavedShape | background/storage-manager.js:8-12 | After a save the new snapshot comes first. The list holds at most MAX_SNAPSHOTS entries. The surviving old entries follow in their old order, and no entry is de-duplicated. |
| StorageManager.SavedKeepsAllWhenRoom | background/storage-manager.js:8-12 | A store below the limit keeps every old entry. |
| StorageManager.SavedDropsOldestWhenFull | background/storage-manager.js:10-12 | A full store drops exactly its oldest entry. |
| StorageManager.LegacyFollowers | background/storage-manager.js:28 | Each legacy username becomes a follower with that name and empty full name and picture, in the same order. |
| StorageManager.MigrateAll | background/storage-manager.js:23-32 | The migration maps each record in place and keeps the length. |
| StorageManager.MigrateKeepsModern | background/storage-manager.js:24 | A record that has followers is returned unchanged. |
| StorageManager.MigrateUpgradesLegacy | background/storage-manager.js:25-29 | A record with only `usernames` gains one blank follower per username. Its other fields are untouched. |
| StorageManager.MigrateKeepsBare | background/storage-manager.js:31 | A record with neither list is returned unchanged. |
| StorageManager.MigrateHasFollowers | background/storage-manager.js:23-32 | After migration a record has followers exactly when it had followers or usernames. |
| StorageManager.MigrateAllIdempotent | background/storage-manager.js:23-32 | Migrating twice is the same as migrating once. |
| StorageManager.WithoutMembers | background/storage-manager.js:37-39 | After the delete filter, the list holds exactly the old entries whose timestamp differs. |
| StorageManager.WithoutAppend | background/storage-manager.js:37-39 | The delete filter keeps order: filtering a concatenation filters each part. |
| StorageManager.WithoutAbsent | background/storage-manager.js:37-39 | Filtering a timestamp that no entry has changes nothing. |
| StorageManager.WithoutIdempotent | background/storage-manager.js:37-39 | Deleting the same timestamp twice is the same as deleting it once. |
| FollowerTracker.ByUsername | background/follower-tracker.js:11-12 | The `Map` built from the followers has exactly their usernames as keys. Each key maps to a record with that username. |
| FollowerTracker.ByUsernameKeepsLast | background/follower-tracker.js:11-12 | When a username repeats, the last record with it wins. |
| FollowerTracker.InsertionOrder | background/follower-tracker.js:18 | The Map's iteration order lists each username once, and lists exactly the usernames present. |
| FollowerTracker.SortByUsername | background/follower-tracker.js:33-35 | Sorting is a permutation of its input. |
| FollowerTracker.SortStrictlySorted | background/follower-tracker.js:33-35 | Sorting followers with distinct usernames gives a list strictly ascending by username. |
| FollowerTracker.InsertStrictlySorted | background/follower-tracker.js:33-35 | Inserting a new username into a strictly sorted list keeps the list strictly sorted. |
| FollowerTracker.SortIsListing | background/follower-tracker.js:33-35 | Sorting a bucket's distinct records gives the ascending listing of that bucket's usernames. |
| FollowerTracker.ListingUnique | background/follower-tracker.js:33-35 | Two ascending listings of the same keys from the same map are equal, so the sorted output does not depend on the input order. |
| FollowerTracker.DistinctUsernamesCount | background/follower-tracker.js:43-45 | A list whose usernames are distinct has as many usernames as entries. |
| FollowerTracker.ComputeDiff | background/follower-tracker.js:9-47 | Computes a correct diff: <br>- `unfollowed` holds the older-only usernames, with the older records; <br>- `newFollowers` holds the newer-only usernames, with the newer records; <br>- `unchanged` holds the shared usernames, with the newer records; <br>- each list ascends by username; <br>- the dates are copied; <br>- the counts are the input lengths and the length of `unchanged`. |
| FollowerTracker.SplitOlder | background/follower-tracker.js:18-24 | The pass over the older usernames puts, once each, the older record of every username missing from the newer snapshot in `unfollowed`, and the newer record of every shared username in `unchanged`. |
| FollowerTracker.CollectNew | background/follower-tracker.js:26-30 | The pass over the newer usernames puts, once each, the newer record of every username missing from the older snapshot in `newFollowers`. |
| FollowerTracker.DiffDeterministic | background/follower-tracker.js:9-47 | Two snapshots have exactly one diff. |
| FollowerTracker.DiffPartitions | background/follower-tracker.js:18-30 | Together, the three buckets hold every username of either snapshot, and no username is in two buckets. |
| FollowerTracker.DiffWithItself | background/follower-tracker.js:9-47 | A snapshot diffed with itself has no unfollowed and no new followers. Every distinct username is unchanged. |
| FollowerTracker.DiffExample | background/follower-tracker.js:9-47 | Diffing {a, b} with {b, c}: a is unfollowed, c is new, and the newer b is unchanged. The counts are 2, 2 and 1. |
| FollowerTracker.MapValues | background/follower-tracker.js:56-57 | The de-duplicated values have distinct usernames, the same set of usernames, and the last record for each. |
| FollowerTracker.CreateSnapshot | background/follower-tracker.js:54-68 | The snapshot carries the clock's timestamp and date and the scanned user. Its followers are the ascending listing of the distinct usernames, each with its last record. Its count is the number of distinct usernames. |
| FollowerTracker.CreateSnapshotKeepsLast | background/follower-tracker.js:56 | The last record for each username is the one the snapshot keeps. |
| SnapshotSchema.FirstIndex | shared/snapshot-schema.js:32-37 | Returns the first index that fails the check: every earlier element passes, and the element at that index fails. |
| SnapshotSchema.ValidateSnapshot | shared/snapshot-schema.js:7-51 | The loop-based validation returns exactly the verdict of the five checks below, in source order. |
| SnapshotSchema.RejectsNonObject | shared/snapshot-schema.js:8-10 | A falsy value or a non-object is rejected with "Snapshot must be an object.". |
| SnapshotSchema.RejectsBadTimestamp | shared/snapshot-schema.js:12-14 | A non-number timestamp, or one that is 0 or less, is rejected. |
| SnapshotSchema.RejectsMissingFollowers | shared/snapshot-schema.js:16-29 | An object with neither a `followers` array nor a `usernames` array is rejected. |
| SnapshotSchema.RejectsFirstInvalidFollower | shared/snapshot-schema.js:32-37 | The reason names the index of the first follower entry that is not an object with a string username. |
| SnapshotSchema.AcceptedSnapshotShape | shared/snapshot-schema.js:39-48 | An accepted snapshot has the following shape: <br>- its timestamp is the input's; <br>- its count is the input's number, or else the entry count; <br>- its scannedUser is the input's string, or else ""; <br>- it has one normalised follower per entry. |
| SnapshotSchema.AcceptsLegacyUsernames | shared/snapshot-schema.js:16-26 | A legacy `usernames` array is accepted, and each name becomes a follower with empty fields. |
| SnapshotSchema.ValidateExportData | shared/snapshot-schema.js:58-86 | The loop-based validation of a file returns exactly the file verdict. |
| SnapshotSchema.ExportAcceptsAll | shared/snapshot-schema.js:76-85 | A non-empty array of valid snapshots is accepted as the list of their normalised forms. |
| SnapshotSchema.ExportRejectsEmptyOrMalformed | shared/snapshot-schema.js:59-74 | A falsy file, a value that is neither an array nor `{snapshots: [...]}`, and an empty array are all rejected. |
| SnapshotSchema.ExportNamesFirstRejected | shared/snapshot-schema.js:77-81 | The reason is "Snapshot #k: " followed by the inner reason, where k is the first rejected snapshot counting from 1. |
| SnapshotSchema.ExportAcceptedShape | shared/snapshot-schema.js:58-86 | An accepted file has a non-empty snapshot array, and each of its snapshots is valid. |
| Text.NatToStringRoundTrip | shared/snapshot-schema.js:35 | The decimal text of an index reads back as that index, so rejection reasons name distinct indices. |
| PopupExportImport.ExportFollowers | popup/popup-export-import.js:28-32 | Each follower keeps its username and full name. Its picture is blanked exactly when stripping is on. |
| PopupExportImport.ExportProjection | popup/popup-export-import.js:24-33 | The export projection fails exactly when some snapshot lacks followers, because `s.followers.map` throws. Otherwise it keeps the length, timestamps and counts, and gives scannedUser or "". |
| PopupExportImport.HandleExportSnapshots | popup/popup-export-import.js:13-49 | Three outcomes are possible: <br>- with no snapshots, the "No snapshots to export." error; <br>- if a record lacks followers, the handler aborts; <br>- otherwise the projection is exported as `ig-followers-<now>.json` with "Exported N snapshot(s).". <br>With snapshots present, the export happens exactly when the projection exists. |
| PopupExportImport.ExportOfStoreSucceeds | popup/popup-export-import.js:24-33 | The export of a migrated store never throws when each record has followers or legacy usernames. |
| PopupExportImport.SnapshotJsonValid | popup/popup-export-import.js:24-33 | An exported snapshot with a positive timestamp passes snapshot validation. Validation gives back what was exported. |
| PopupExportImport.ExportValidates | popup/popup-export-import.js:24-33 | A non-empty export file validates as a whole, into the exported snapshots. |
| PopupExportImport.ExportRoundTrip | popup/popup-export-import.js:24-33 | A store of snapshots is exported and then validated, and the round trip keeps the following: <br>- timestamps, counts and follower counts are kept; <br>- without stripping, the followers are returned unchanged. |
| PopupExportImport.ImportSummary | popup/popup-export-import.js:81-85 | The summary built part by part equals `SummaryText` of the two counts. |
| PopupExportImport.SummaryText | popup/popup-export-import.js:81-85 | The summary has four possible texts: "N imported, M duplicate skipped.", "N imported.", "M duplicate skipped." and ".". A part appears exactly when its count is positive. |
| PopupExportImport.HandleImportFileSelected | popup/popup-export-import.js:57-94 | The handler has five possible outcomes: <br>- no file: nothing happens; <br>- a read failure: "Failed to read file."; <br>- unparsable text: "Invalid JSON file.", and nothing is sent; <br>- the reply has an error: that error as a toast; <br>- otherwise: a success toast whose text is `SummaryText` of the reply's counts, and a reload. |
| PopupFollowers.EscapeHTMLIsSinglePass | popup/popup-followers.js:349-355 | The four chained replacements equal one pass that maps each character to its entity. |
| PopupFollowers.EscapeHTMLSafe | popup/popup-followers.js:349-355 | The output holds no `<`, `>` or `"`. |
| PopupFollowers.EscapeHTMLAmpersands | popup/popup-followers.js:349-355 | Every `&` in the output begins one of the four entities. |
| PopupFollowers.EscapeHTMLRoundTrip | popup/popup-followers.js:349-355 | Decoding the four entities gives the original text back. |
| PopupFollowers.EscapeHTMLInjective | popup/popup-followers.js:349-355 | Different texts never escape to the same output. |
| PopupFollowers.EscapeHTMLAppend | popup/popup-followers.js:349-355 | Escaping distributes over concatenation. |
| PopupFollowers.EscapeAttrQuotes | popup/popup-followers.js:357-359 | escapeAttr leaves no double quote, and leaves quote-free text unchanged. |
| PopupFollowers.EscapeAttrPerChar | popup/popup-followers.js:357-359 | escapeAttr works character by character: only `"` is rewritten. |
| PopupFollowers.EscapeAttrLeavesAmpersand | popup/popup-followers.js:357-359 | `&quot;` and `"` escape to the same attribute text, because `&` is not escaped. |
| PopupFollowers.Matching | popup/popup-followers.js:214-219 | The filter keeps exactly the followers whose lower-cased username or full name contains the query. |
| PopupFollowers.FilterFollowers | popup/popup-followers.js:212-223 | A blank query shows the whole list. Otherwise the list is filtered by the trimmed, lower-cased query. |
| PopupFollowers.MatchingAppend | popup/popup-followers.js:214-219 | Filtering keeps order. |
| PopupFollowers.MatchingIdempotent | popup/popup-followers.js:214-219 | Filtering twice is the same as filtering once. |
| PopupFollowers.EmptyQueryKeepsAll | popup/popup-followers.js:214-219 | Every follower matches the empty text. |
| PopupFollowers.HandleCompare | popup/popup-followers.js:281-307 | A diff is requested exactly when both selections are non-zero numbers and they differ. A missing selection shows the select-both error. |
| PopupFollowers.DefaultSelection | popup/popup-followers.js:275-278 | With two or more snapshots, the older select holds the last listed snapshot and the newer select holds the first. |
| PopupFollowers.ScanErrorText | popup/popup-followers.js:117 | The toast text is never empty, and it is the error whenever the error is non-empty. |
| PopupFollowers.FollowersTab.HandleScanButtonClick | popup/popup-followers.js:53-79 | A click cancels a running scan and otherwise starts one. Either way the tab counts as scanning. |
| PopupFollowers.FollowersTab.HandleScanComplete | popup/popup-followers.js:103-112 | The scan ends, and a success toast with the count appears exactly when a snapshot came back. |
| PopupFollowers.FollowersTab.HandleScanError | popup/popup-followers.js:114-118 | The scan ends with an error toast. |
| PopupFollowers.FollowersTab.StartScanReplied | popup/popup-followers.js:65-69 | A non-empty error in the start reply ends the scan with that error. |
| PopupFollowers.FollowersTab.OpenSnapshotDetail | popup/popup-followers.js:189-204 | The detail view shows the snapshot's followers, or none, unfiltered. |
| PopupFollowers.FollowersTab.FilterFollowerList | popup/popup-followers.js:212-223 | The rendered list is the filtered detail list. The detail list itself is kept. |
| ScrollAutomation.Step | content-scripts/utils/scroll-automation.js:51-78 | A new count resets both counters. Otherwise exactly one counter grows by one. |
| ScrollAutomation.ScrollPass | content-scripts/utils/scroll-automation.js:51-78 | One pass of the loop updates the counters as the step function says. |
| ScrollAutomation.StaleProgress | content-scripts/utils/scroll-automation.js:51-78 | While the count stays put, stale scrolls plus bottom hits grow by one each pass. |
| ScrollAutomation.SettlesAfterStall | content-scripts/utils/scroll-automation.js:40-79 | With no new items, the counters settle within 12 passes. |
| ScrollAutomation.StallBound | content-scripts/utils/scroll-automation.js:40-79 | A run of unsettled passes with no new items is at most 12 long. |
| ScrollAutomation.AutoScroll | content-scripts/utils/scroll-automation.js:36-79 | Every pass began uncancelled and unsettled, and the loop stops only for a cancel or settled counters. With no new items it stops within 12 scrolls. autoScrollPage, at lines 146-182, runs the same loop. |
| ScrollAutomation.FindScrollContainer | content-scripts/utils/scroll-automation.js:110-128 | A container is found exactly when the dialog has a scrollable div. When one is found, it is the first such div. |
| ScrollAutomation.WaitForScrollContainer | content-scripts/utils/scroll-automation.js:92-102 | At most maxAttempts lookups are made. When a container is found, it comes from the last lookup and all earlier lookups failed. Otherwise every attempt failed. |
| FollowerScraper.StripSlashes | content-scripts/follower-scraper.js:185 | The result is the href with exactly one leading "/" removed if there is one and then exactly one trailing "/" removed if one is left; every other character is kept, in order. |
| FollowerScraper.LinkUsernameAccepts | content-scripts/follower-scraper.js:183-191 | A link is kept exactly when its normalised href is non-empty, not a reserved path, and made only of username characters. The later "/" test never rejects anything. |
| FollowerScraper.LinkUsernameLowerCase | content-scripts/follower-scraper.js:185 | A kept username has no upper-case letter. |
| FollowerScraper.RowKeys | content-scripts/follower-scraper.js:180-197 | The rows' keys list each username once, and list exactly the usernames that have a row. |
| FollowerScraper.FirstNamed | content-scripts/follower-scraper.js:182-196 | The index of the first link naming a username: that link names it and no earlier link does; it is the link count when none does. |
| FollowerScraper.RowKeysMember | content-scripts/follower-scraper.js:180-197 | A username is a key of rowsByUsername exactly when some link names it. |
| FollowerScraper.RowKeysFirstSeen | content-scripts/follower-scraper.js:180-197 | The keys come in first-seen order: key i precedes key j exactly when the first link naming key i comes before the first link naming key j. |
| FollowerScraper.NamedByMeans | content-scripts/follower-scraper.js:182-191 | A link list names a username exactly when some index holds a link whose normalised href is that username. |
| FollowerScraper.RowLinksNamed | content-scripts/follower-scraper.js:180-197 | rowsByUsername has a row for a username exactly when some link names it. |
| FollowerScraper.RowLinksKeys | content-scripts/follower-scraper.js:180-197 | The rows are exactly the usernames some link names. Each row maps to a link that names it. |
| FollowerScraper.RowLinksPrefersLastImg | content-scripts/follower-scraper.js:194-196 | A row keeps the last link for its username that holds an img. |
| FollowerScraper.RowLinksKeepsFirst | content-scripts/follower-scraper.js:194-196 | When no link for a username holds an img, the row keeps the first one. |
| Text.Utf16Length | content-scripts/follower-scraper.js:211 | The JavaScript `length` of a string: between its code-point count and twice it. |
| Text.Utf16LengthBmp | content-scripts/follower-scraper.js:211 | The JavaScript length equals the code-point count exactly when no character lies outside the Basic Multilingual Plane. |
| FollowerScraper.FullNameEmpty | content-scripts/follower-scraper.js:204-219 | The full-name search comes back empty exactly when no span of the first six ancestors is a candidate. |
| FollowerScraper.FullNameDepthBound | content-scripts/follower-scraper.js:207 | Only the first six ancestors matter to the full-name search. |
| FollowerScraper.FindFullName | content-scripts/follower-scraper.js:203-219 | The ancestor walk finds the specified full name. |
| FollowerScraper.Merge | content-scripts/follower-scraper.js:200-229 | A row's record keeps a known non-empty name and picture. It looks up the name or picture only when that field is missing. |
| FollowerScraper.Extracted | content-scripts/follower-scraper.js:172-231 | After an extraction pass: <br>- every named username is present; <br>- no username is removed; <br>- known names and pictures are kept; <br>- usernames no link names are untouched. |
| FollowerScraper.NewKeys | content-scripts/follower-scraper.js:229 | The keys a pass adds are exactly the new usernames. |
| FollowerScraper.StallRunMeaning | content-scripts/follower-scraper.js:161-166 | The no-advance count is the length of the run of passes, ending now, that did not advance. |
| FollowerScraper.HttpEntries | content-scripts/follower-scraper.js:236-237 | The conversion works on exactly the collected records whose picture starts with "http". |
| FollowerScraper.FirstSegment | content-scripts/follower-scraper.js:103 | scannedUser is the pathname's first segment: a prefix of the pathname with no "/" in it. |
| FollowerScraper.ConversionOnlyTouchesHttp | content-scripts/follower-scraper.js:235-262 | Conversion never adds or removes a follower and never changes a name. A picture changes only for an http entry whose fetch succeeded, and then to the fetched data. |
| FollowerScraper.ExtractedNames | content-scripts/follower-scraper.js:172-231 | After one extraction, a username is collected exactly when it was collected before or a link of the pass names it. |
| FollowerScraper.ScrolledToStep | content-scripts/follower-scraper.js:148-151 | One more pass extends the fold: the collection and key order after pass n+1 are those after pass n with pass n's rows extracted. |
| FollowerScraper.ScrolledKeySet | content-scripts/follower-scraper.js:148-151 | The usernames collected after n passes are the starting ones plus the row usernames of each pass. |
| FollowerScraper.PassKeysNamed | content-scripts/follower-scraper.js:148-151 | Those usernames are exactly the starting ones and the ones some link of an earlier pass names. |
| FollowerScraper.ScrolledKeys | content-scripts/follower-scraper.js:148-151 | After n passes the collection holds a username exactly when it did at the start or a link of one of those passes names it. |
| FollowerScraper.NamedInPassesMeans | content-scripts/follower-scraper.js:148-151 | A username is named in the first n passes exactly when some pass k < n has a link naming it. |
| FollowerScraper.ScanRanCollects | content-scripts/follower-scraper.js:85-101 | After a scan, conversion added and removed no key, and the final collection holds a username exactly when it did at the start or a link of some scroll pass or of the final sweep names it. |
| FollowerScraper.ExtractedHarvests | content-scripts/follower-scraper.js:172-231 | An extraction collects every visible row and blanks nothing already known. |
| FollowerScraper.Scraper.Values | content-scripts/follower-scraper.js:101 | The collected values come in insertion order, with distinct usernames. |
| FollowerScraper.Scraper.CancelOperation | content-scripts/follower-scraper.js:31-34 | A cancel message sets the cancel flag and changes nothing else. |
| FollowerScraper.Scraper.BeginScan | content-scripts/follower-scraper.js:40-48 | A start during a scan only sets the cancel flag. Otherwise a fresh scan starts with an empty collection. |
| FollowerScraper.Scraper.EndScan | content-scripts/follower-scraper.js:108-112 | Both flags are cleared and the collection is kept. |
| FollowerScraper.Scraper.ExtractFollowersFromDOM | content-scripts/follower-scraper.js:172-231 | The collection becomes the extracted map. The key order grows by the new usernames in row order. |
| FollowerScraper.Scraper.ExtractPass | content-scripts/follower-scraper.js:150 | One pass's extraction moves the collection and key order from the fold after n passes to the fold after n+1, harvesting the pass's rows and losing nothing. |
| FollowerScraper.Scraper.ScrollVirtualizedList | content-scripts/follower-scraper.js:137-168 | The collection and key order at the end are exactly `Scrolled` and `ScrolledOrder` of the passes run: one extraction per pass, in order. The rows of every pass are harvested. The loop stops only for a cancel or five passes in a row without advancing, and went on after every earlier pass. Nothing known is blanked. |
| FollowerScraper.Scraper.SweepAndConvert | content-scripts/follower-scraper.js:87-99 | The final sweep extracts the rendered rows into the collection and appends their new usernames to the key order. A cancelled scan stops there; otherwise the pictures are converted batch by batch, with the same keys. |
| FollowerScraper.Scraper.ScanContainer | content-scripts/follower-scraper.js:84-106 | Scroll, sweep and conversion run as `ScanRan` says, from the collection held when scrolling began, and the reply carries exactly the swept usernames. |
| FollowerScraper.Scraper.ConvertProfilePicsToBase64 | content-scripts/follower-scraper.js:235-262 | Conversion goes batch by batch: <br>- the collection equals the conversion of the entries of every batch run; <br>- a batch is skipped only after a cancel; <br>- the key order is kept. |
| FollowerScraper.Scraper.RunScan | content-scripts/follower-scraper.js:50-106 | The scan can end in one of four ways: <br>- no followers link; <br>- no dialog; <br>- no container, after one sweep; <br>- completion. <br>On completion the reply carries the collected values and the pathname's first segment. The scan also ran as `ScanRan` says, with the cancel flag set if a cancel arrived before scrolling: <br>- the scroll loop went on while it saw no cancel and no run of five stalled passes, and stopped early only for one of them; <br>- the collection after the sweep is the fold of one extraction per scroll pass followed by the sweep's extraction, and the key order is the matching fold; <br>- every row of every pass and of the final sweep is in the reply; <br>- unless the scroll was cancelled, the pictures of the batches run are converted, and a batch is skipped only after a cancel. |
| FollowerScraper.Scraper.StartFollowerScan | content-scripts/follower-scraper.js:39-113 | A start during a scan returns `[]` and only cancels the running scan. Otherwise both flags end cleared, and the scan, begun on an empty collection, ends in one of the four ways `RunScan` names, with the same messages. A completed scan ran as `ScanRan` says, and its reply's usernames are exactly those named by a link of some scroll pass or of the final sweep. |

## Left out

- **Browser APIs.** The following are not modelled: `chrome.runtime` / `chrome.tabs` / `chrome.storage` messaging and persistence as I/O, the `MutationObserver` on the dialog, sleeps and random delays, progress messages (`sendProgress`, `updateScanProgress`, `setProgress`), and the completion broadcast. They become parameters or are dropped. A cancel from any source is one observation per pass or per batch.
- **Oracle exhaustion.** Loops driven by observation sequences (`AutoScroll`, `ScrollVirtualizedList`) also stop when the sequence runs out. Their contracts state this case separately.
- FollowerScraper.Scraper.ConvertProfilePicsToBase64: the ten fetches of a batch run one after another, not with `Promise.all`. Each entry's outcome is a function of its URL. The `done` counter shown in progress text is not modelled.
- **`Page.cancelDuringBatch`.** A cancel during a batch is given as the set of batch numbers it arrives in. Its arrival time inside a batch is not modelled.
- **Scraper messages.** The scraper's message listener that sends responses, and the source's opening of the dialog with a click and `waitForElement`, are modelled only by `RunScan`'s page observations (`dialogOpen`, `followersLink`, `dialogAppeared`).
- ScrollAutomation.WaitForScrollContainer: the default of 15 attempts, used when no count is passed, is not modelled; the scan passes 20 (content-scripts/follower-scraper.js:78), and `Page.container` stands for the result of that call.
- ScrollAutomation.ScrollPass: only updates the counters. The 400 px step, `onScroll` and the extra 2 s wait after a bottom hit are side effects left out. The position after the step is an observation.
- **`ServiceWorker` exceptions.** A handler that throws (a missing `followers` list in computeDiff, createSnapshot or the export `map`) is a `Thrown` reply or an `Aborted` outcome. The exception text is not modelled.
- Text.Less: `localeCompare` is modelled as code-point lexicographic order. Locale collation is not modelled, and neither is the UTF-16 code-unit order that differs from it for characters outside the Basic Multilingual Plane.
- FollowerScraper.LinkUsername: the `a[href^="/"]` selector guarantees the source an href that starts with "/". `Link.href` is not constrained that way; `LinkUsername` handles any href, and for one that starts with "/" it is the source's normalisation.
- **Cancels before scrolling.** A cancel during the waits before the scroll loop (after the dialog opens, while the container is awaited) is one observation, `Page.cancelledBeforeScroll`, applied just before scrolling. Its exact moment is not modelled; it only matters from the scroll loop on, where the flag is first read.
- Text.Lower: lower-cases ASCII letters only. Unicode case mapping is not modelled.
- **JSON values.** JSON values are a small `JValue` datatype. `JSON.parse` is an `Option` the caller gives, and `JSON.stringify` followed by `JSON.parse` is assumed to give the same value back.
- **Numbers.** JSON numbers are integers in the model. Fractions, NaN and Infinity are not modelled, nor is their `String` form.
- PopupFollowers.Chosen: `parseInt` of a select value is given as `Option<int>`, with `None` for NaN.
- **Message fields.** Message fields are assumed to have the types the senders use.
- **MSG constants.** `shared/message-types.js` is not part of this model. Its constants are taken to be the strings they are named after, which are what the content script and the popup send.
- **IMPORT_SNAPSHOTS.** The service worker has no case for IMPORT_SNAPSHOTS, so an import is always answered with "Unknown message type: IMPORT_SNAPSHOTS" and the import handler shows that error. The import merge has no source and is not modelled. `PopupExportImport.HandleImportFileSelected` takes the reply as a parameter.
- **`handleImportClick`.** `handleImportClick` only resets and clicks a file input. Nothing there to model.
- **Rendering.** Rendering is not modelled: `loadSnapshots`' HTML, `renderFollowerList`, `followerRowHTML`, `displayDiff`, `formatDate`, toasts' DOM, the Blob and the download link. Only the texts and choices they depend on are modelled: escaping, filtering, toasts as values and the export file name.
- **Follower fields.** Follower fields are always strings in the model. So `f.fullName || ""` and `f.profilePicUrl || ""` in the export are identities.
- **`findScrollContainer`.** A dialog is modelled as its list of divs. `FindScrollContainer` returns the position of the div. `getComputedStyle` is an observed `overflowY` string.
- **Helper scripts.** `content-scripts/utils/dom-helpers.js` and `content-scripts/utils/rate-limiter.js` are not part of this model. They only wait and query the DOM.
