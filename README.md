# Scholar Email Scraper — a verified Dafny model

The application collects the email addresses of paper authors from journal web
pages. It puts the URLs into a queue, processes them one by one, and records
each address as a contact. The store drops contacts it has already seen, keyed
by address and source page. The results can be exported as CSV, Excel-friendly
CSV, JSON or plain text, with summary statistics. Access goes through a login
window that checks credentials and an `SLS-` licence key. An administration
panel keeps users and licences.

This project models the decision logic of that application in Dafny and proves
properties of it. Browsers, DNS, storage and the DOM become parameters or are
left out. One module per source file:

| module | file | what it models |
|---|---|---|
| `Wrappers`, `Text`, `Seqs` | common.dfy | Option/Result; JavaScript's `\s`, `trim`, ASCII case folding, `includes`, `startsWith`; first index by key; first-occurrence deduplication (`[...new Set(xs)]` and key-based filters) |
| `Records` | records.dfy | the contact record, its dedup key, verified/duplicate counts, the insertion-ordered journal tally |
| `EmailRules` | email.dfy | the address regex and the two exclusion lists of the page scraper and of the data manager |
| `Csv` | csv.dfy | both CSV writers and an RFC 4180 reader, with round trips |
| `Base64` | base64.dfy | base 64 as section 4 of RFC 4648 defines it, encode and strict decode |
| `License` | license.dfy | the desktop shell's licence keys, expiry and offline grace |
| `Controller` | controller.dfy | the scrape controller's run with retries, backoff, pause/resume/stop |
| `DataStore` | data_manager.dfy | the result store and its dedup map, uniqueness filters, statistics, search |
| `Exports` | export_manager.dfy | export guards, file names and contents, statistics, the journal ordering, validation |
| `PageScraper` | extraction.dfy | journal and author lookup, per-page email records, the MX domain, the run flags |
| `Ui` | ui.dfy | URL truncation, the button states, the queue's statuses and counters |
| `App` | app.dfy | the renderer's own run: queue, pause wait, rate limit, stop, store updates |
| `Admin` | admin.dfy | the user/licence registry, its counters, the licence key generator |
| `Login` | login.dfy | the field check, the account table, the licence prefix check, what is remembered |

Oracles stand in for what is outside the program:
- page fetches (`fetch`, `extract`), the random key draws (`pick`) and the id generator (`newId`);
- the clock (`now`), DNS (`resolve`) and JSON (`serialize`, `parse`, `stringify`);
- the operator's button presses: a `timeline` with one entry per poll point. The renderer's loop (main.js) polls at each of its awaits. The controller polls once per pause tick and once after each URL, and that one poll stands for the `performScrape` sleep, each retry backoff and the rate-limit sleep (ScraperController.js:57-58, 86-89, 100). No flag is read between those awaits, and any burst of pause, resume and stop presses leaves the flags as one of the three actions (or none) would, so one entry per poll point loses no reachable state.

Waits are recorded as events in a run's trace, not as elapsed time.

## Model

| member | source | states |
|---|---|---|
| Text.TrimStartFacts | electron/scraper.js:135 | `trimStart` drops a prefix made only of white space and the result does not start with white space |
| Text.TrimEndFacts | electron/scraper.js:153 | `trimEnd` drops a suffix made only of white space and the result does not end with white space |
| Text.TrimCharacterised | electron/scraper.js:94 | `trim` gives an infix of the input with only white space cut off on either side and none left at either end |
| Text.ToLower | src/managers/DataManager.js:277 | case folding keeps the length and folds each character on its own |
| Text.NatToString | src/managers/ExportManager.js:211-214 | the decimal text of a count is non-empty, made of digits, with no leading zero |
| Seqs.DedupFromKeys | src/managers/DataManager.js:135-144 | the kept elements have pairwise distinct keys and bring exactly the keys not already seen |
| Seqs.DedupFromOrder | src/managers/DataManager.js:135-144 | the kept elements appear in input order (a subsequence) |
| Seqs.DedupFromFirst | src/managers/DataManager.js:135-144 | every kept element is the first input element with its key |
| Seqs.DedupFromFirstOrder | src/managers/DataManager.js:135-144 | the kept elements come in the order in which their keys first occur in the input |
| Seqs.DedupFromSnoc | src/managers/DataManager.js:29-39 | one element more is kept exactly when its key is new |
| Seqs.DistinctKeysCount | src/managers/DataManager.js:61-70 | with pairwise distinct keys there are as many keys as elements |
| Seqs.DedupByCharacterised | src/managers/DataManager.js:135-144 | key-based first-occurrence filtering: distinct keys, the same key set, a subsequence of the input, each survivor the first element with its key, and survivors in the order their keys first occur |
| Seqs.DistinctCharacterised | electron/scraper.js:99 | `[...new Set(xs)]` keeps the same members, without repeats, as a subsequence and in the order each first occurs |
| Seqs.DistinctSnoc | electron/scraper.js:99 | `[...new Set(xs)]` extended by one element adds it exactly when it is new |
| Seqs.Filter | src/admin.js:388 | `filter`: exactly the elements that pass, each as many times as it occurs in the input, in input order |
| Seqs.FirstIndex | src/managers/DataManager.js:147 | the index of the first element with the key, or none when no element has it: `findIndex` by id in the store, and `find` by id for users and licences in the admin panel |
| Seqs.FirstIndexByKeys | src/admin.js:408-416 | lists with the same ids position by position find the same first licence for every id |
| Records.CountVerified | src/managers/DataManager.js:72-92 | the verified count is at most the record count |
| Records.CountUnverified | src/managers/DataManager.js:72-92 | the unverified count is at most the record count |
| Records.CountDuplicates | src/managers/ExportManager.js:141-169 | the duplicate count is at most the record count |
| Records.VerifiedSplit | src/managers/ExportManager.js:141-147 | verified plus unverified is the record count |
| Records.EmailsBounded | src/managers/ExportManager.js:146 | there are never more distinct emails than records |
| Records.BumpEffect | src/managers/ExportManager.js:155-159 | counting one record under a journal adds one to that journal's count and to the total, and keeps labels distinct |
| Records.LabelInBump | src/managers/ExportManager.js:155-159 | counting a record keeps existing entries in place and can only add the new label |
| Records.TallyCorrect | src/managers/ExportManager.js:155-159 | the journal tally counts each journal's records exactly, sums to the record count, with no repeated label |
| EmailRules.ValidateEmail | src/managers/DataManager.js:261-286 | "Invalid format" iff the regex fails; "System email" iff it matches and an excluded word occurs ignoring case; accepted otherwise |
| EmailRules.StoreStricterThanScraper | src/managers/DataManager.js:261-286 | whatever the data manager accepts the scraper accepts; they differ only on `webmaster@` |
| EmailRules.AdminAccountRefused | electron/scraper.js:164-178 | a capitalised role account is refused by both checks |
| Csv.Cells | src/managers/ExportManager.js:51-58 | a record gives one cell per header, in header order |
| Csv.Double | src/managers/ExportManager.js:62 | doubling quotes only lengthens the text and keeps which of quote, comma and newline occur |
| Csv.EncodeCell | src/managers/ExportManager.js:61-66 | a cell is quoted, with its quotes doubled, exactly when it holds a comma, quote or newline (always, for the data manager's writer) |
| Csv.CellRows | src/managers/ExportManager.js:51-72 | one cell row per record, in record order |
| Csv.RecordLines | src/managers/ExportManager.js:51-72 | one written line per record, in record order |
| Csv.CellRoundTrip | src/managers/ExportManager.js:61-66 | reading a written cell back gives the original text, as rules 6-7 of section 2 of RFC 4180 require |
| Csv.RowRoundTrip | src/managers/ExportManager.js:71 | reading a written row back gives its cells |
| Csv.DocumentRoundTrip | src/managers/ExportManager.js:74 | a document of written rows reads back as those rows |
| Csv.HeaderLineIsRendered | src/managers/ExportManager.js:49 | the header line is the header row written with the cell rules |
| Csv.RecordsRoundTrip | src/managers/ExportManager.js:33-75 | the header line followed by the record lines reads back as the header and the cells of each record |
| Csv.GenerateCsvRoundTrip | src/managers/ExportManager.js:33-75 | `generateCSV` output reads back as the header followed by one row per record |
| Csv.ExportToCsvRoundTrip | src/managers/DataManager.js:181-199 | `exportToCSV` output, although every cell is quoted, reads back the same way |
| Csv.GenerateCsvShape | src/managers/ExportManager.js:33-49 | no output for no data; otherwise the first line is exactly the header |
| Base64.SextetOfCharOf | electron/license.js:29 | every sextet's character decodes back to it |
| Base64.CharOfSextetOf | electron/license.js:36 | every alphabet character is the character of what it decodes to |
| Base64.Encode | electron/license.js:29 | the encoding has 4 characters per started group of 3 bytes |
| Base64.GroupRoundTrip | electron/license.js:29 | a full group decodes to its three bytes |
| Base64.PadOneRoundTrip | electron/license.js:29 | two bytes round-trip through one padding character |
| Base64.PadTwoRoundTrip | electron/license.js:29 | one byte round-trips through two padding characters |
| Base64.DecodeEncode | electron/license.js:16-31 | decoding undoes encoding for every byte string |
| Base64.LastCanonical | electron/license.js:36 | an accepted last group is exactly the encoding of what it decodes to |
| Base64.EncodeDecode | electron/license.js:36 | whatever the strict decoder accepts is the encoding of its result |
| License.GenerateLicenseKey | electron/license.js:16-31 | a key is `SLS-` followed by the base 64 encoding of the serialised licence data |
| License.ValidateLicenseKey | electron/license.js:33-58 | "Invalid license format" iff no `SLS-` prefix; "Invalid license key" iff the rest does not decode and parse; "License expired" iff expired; otherwise the parsed data |
| License.GenerateThenValidate | electron/license.js:16-58 | a freshly generated, unexpired key validates to the data it was made from |
| License.ExpiryBoundary | electron/license.js:47-49 | a licence expiring at this very millisecond is still valid, and expired one millisecond later |
| License.UnreadableExpiryNeverExpires | electron/license.js:47-49 | a licence whose expiry does not read as a date never expires |
| License.CheckOfflineGrace | electron/license.js:60-68 | no grace without a last check; otherwise grace iff at most 72 hours have passed |
| License.GraceRunsOut | electron/license.js:60-68 | grace lost is not regained by waiting, and it ends exactly 72 hours after the last check |
| Controller.BackoffBounds | src/controllers/ScraperController.js:86-89 | the delay after failed attempt k is 1000, 2000, 4000, 8000 ms, then capped at 10000, and never decreases |
| Controller.RetryCharacterised | src/controllers/ScraperController.js:77-95 | at most `maxRetries` attempts; the first success is returned after the backoffs of the failures before it; otherwise the last error, with no sleep after the final attempt |
| Controller.ScraperController.ScrapeUrl | src/controllers/ScraperController.js:77-95 | the retry loop computes exactly the specified result and sleeps |
| Controller.Poll | src/controllers/ScraperController.js:37-41 | an await point consumes one operator action and changes only the flags |
| Controller.RunAccounted | src/controllers/ScraperController.js:16-75 | URLs go in queue order; the n-th progress report is `(n, queue.length)`; every URL counts once as processed or as an error; results are the earlier results then each success's records, counted in `emailsFound` |
| Controller.RateLimitOnlyBetweenSuccesses | src/controllers/ScraperController.js:56-59 | the rate-limit sleep follows a URL exactly when it succeeded and was not the last |
| Controller.RunEndsEarlyOnlyOnStop | src/controllers/ScraperController.js:35-41 | the run ends before the end of the queue only after a stop; it hangs only while paused with no operator action left |
| Controller.StoppedLoopIsIdle | src/controllers/ScraperController.js:35 | once stopped, nothing more is dispatched |
| Controller.JournalFromUrl | src/controllers/ScraperController.js:143-165 | the journal of the first listed domain occurring in the URL, otherwise "Unknown Journal" |
| Controller.ScraperController.constructor | src/controllers/ScraperController.js:3-14 | idle, empty queue and results, zero counters |
| Controller.ScraperController.Pause | src/controllers/ScraperController.js:167-169 | sets the paused flag and nothing else |
| Controller.ScraperController.Resume | src/controllers/ScraperController.js:171-173 | clears the paused flag and nothing else |
| Controller.ScraperController.Stop | src/controllers/ScraperController.js:175-178 | clears both flags and nothing else |
| Controller.ScraperController.ClearResults | src/controllers/ScraperController.js:188-191 | empties the results and zeroes the counters, leaving flags and queue |
| Controller.ScraperController.Turn | src/controllers/ScraperController.js:36-64 | one pass of the loop body either leaves the loop exactly as specified (suspended, stopped or crashed) or moves to the next URL without changing the loop's outcome |
| Controller.ScraperController.ProcessQueue | src/controllers/ScraperController.js:35-65 | the `for` loop ends in the snapshot and outcome the loop's specification gives for the run's start |
| Controller.ScraperController.StartScraping | src/controllers/ScraperController.js:16-75 | refused with state untouched while running; otherwise queue, results, counters, flags and trace are those of the specified run, with both flags cleared on return |
| DataStore.StampAll | src/managers/DataManager.js:18-26 | each accepted record is marked not duplicate and takes the generated id, and the clock only when it had no timestamp |
| DataStore.AppendConsistent | src/managers/DataManager.js:18-26 | appending a record with a new key keeps records and map consistent |
| DataStore.RemoveConsistent | src/managers/DataManager.js:158-173 | removing a record and its key keeps records and map consistent |
| DataStore.ReplaceConsistent | src/managers/DataManager.js:146-156 | replacing a record by one with the same key keeps records and map consistent |
| DataStore.AdmittedCharacterised | src/managers/DataManager.js:29-39 | `addResults` accepts records with distinct keys, exactly the new keys, each the first input with its key, in the order their keys first occur in the batch |
| DataStore.AddAllConsistent | src/managers/DataManager.js:29-39 | adding a batch keeps records and map consistent |
| DataStore.UniqueByEmail | src/managers/DataManager.js:61-70 | the first record of each email, in the order the emails first occur, with pairwise distinct emails and every email kept |
| DataStore.GetStats | src/managers/DataManager.js:72-92 | total, verified and unique as counted; unverified is total minus verified and duplicates is total minus unique, between 0 and total; an exact journal tally |
| DataStore.SearchResults | src/managers/DataManager.js:94-103 | exactly the records matching the lower-cased query in email or a non-empty name, journal or topic, in store order, each matching record as many times as it occurs in the store |
| DataStore.UpdateCanStaleTheMap | src/managers/DataManager.js:146-156 | changing a record's email through `updateResult` leaves its old key in the map |
| DataStore.DataManager.constructor | src/managers/DataManager.js:3-7 | an empty, consistent store |
| DataStore.DataManager.AddResult | src/managers/DataManager.js:9-27 | a known key: false, the record marked duplicate, the store untouched; a new key: true, the stamped record appended, its key added; consistency kept |
| DataStore.DataManager.AddResults | src/managers/DataManager.js:29-39 | returns exactly the accepted inputs in input order, appended to the results, every input key in the map, consistency kept |
| DataStore.DataManager.UpdateResult | src/managers/DataManager.js:146-156 | only the first record with the id takes the update, none when no record has it; the map is untouched |
| DataStore.DataManager.DeleteResult | src/managers/DataManager.js:158-173 | only the first record with the id and its key are removed, none when no record has it; consistency kept |
| DataStore.DataManager.ClearResults | src/managers/DataManager.js:175-179 | no records and an empty map |
| Exports.ReplaceFirst | src/managers/ExportManager.js:90 | a text without the pattern is unchanged |
| Exports.ReplaceFirstCharacterised | src/managers/ExportManager.js:90 | when the pattern occurs, its first occurrence and only that is replaced, the text before and after it kept |
| Exports.XlsxBecomesCsv | src/managers/ExportManager.js:90 | an `.xlsx` file name becomes the same name with `.csv` |
| Exports.DefaultExportName | src/managers/ExportManager.js:16-27 | without a file name, the download is `scholar_scraper_export_<date>` with the format's extension, `.csv` for xlsx |
| Exports.ExportData | src/managers/ExportManager.js:7-31 | "Unsupported format: f" for a format outside csv, xlsx, json, txt, checked first; then "No data to export" for absent or empty data; otherwise a download whose CSV reads back as the header and the records, whose xlsx is the CSV after a byte order mark, and whose JSON is the serialised data |
| Exports.GenerateExportStats | src/managers/ExportManager.js:141-169 | verified plus unverified is the total; unique emails at most the total; journal counts tally each journal exactly and sum to the total |
| Exports.InsertByCountKeeps | src/managers/ExportManager.js:225-229 | inserting into the journal list keeps its entries and total |
| Exports.SortByCount | src/managers/ExportManager.js:225-229 | the sorted journal list is a permutation with the same total |
| Exports.SortByCountCorrect | src/managers/ExportManager.js:225-229 | journals are listed in non-increasing count order, a permutation of the tally, with ties in tally order |
| Exports.StatsLines | src/managers/ExportManager.js:203-232 | the statistics text ends with one line per journal in sorted order |
| Exports.StatsTextListsJournals | src/managers/ExportManager.js:203-232 | the statistics text of some data lists its journal tally, sorted by count |
| Exports.CheckRecords | src/managers/ExportManager.js:251-268 | the record loop gives, record by record in order, exactly the missing-email errors and the missing-field and email-format warnings |
| Exports.ValidateExportData | src/managers/ExportManager.js:235-275 | a non-array gives exactly one error; otherwise valid iff every record has an email, with an error per missing email and a warning per missing recommended field or malformed email |
| Exports.RequiredMissing | src/managers/ExportManager.js:244-248 | a required field is reported missing exactly when it is empty |
| Exports.ErrorsExactlyMissingEmails | src/managers/ExportManager.js:239-256 | the errors are exactly the records without an email |
| Exports.MalformedEmailWarned | src/managers/ExportManager.js:264-270 | a malformed email only adds a warning, never an error |
| PageScraper.FirstText | electron/scraper.js:123-140 | the trimmed text of the first selector that matches anything, even if empty; "" when none matches |
| PageScraper.ExtractJournal | electron/scraper.js:123-140 | `extractJournal` over its fixed selector list |
| PageScraper.NonEmptyTrimsMembers | electron/scraper.js:148-155 | the names kept are exactly the non-empty trimmed texts |
| PageScraper.AuthorsFrom | electron/scraper.js:142-162 | the names of the first selector yielding a non-empty name; none when no selector does |
| PageScraper.ExtractAuthors | electron/scraper.js:142-162 | the selector loop computes exactly those names |
| PageScraper.CollectNames | electron/scraper.js:148-155 | the per-selector loop collects the non-empty trimmed names without repeats |
| PageScraper.AuthorsCharacterised | electron/scraper.js:142-162 | the authors are distinct, non-empty and trimmed, every such text is among them, and they come in the order each first occurs in the document |
| PageScraper.PageRecords | electron/scraper.js:101-114 | one record per kept email that passes `isValidEmail`, with the page's URL, journal, title and first author, not a duplicate |
| PageScraper.PageRecordsEmails | electron/scraper.js:101-114 | the record emails are exactly the valid ones, in order, without repeats |
| PageScraper.BuildRecords | electron/scraper.js:101-114 | the record-building loop computes exactly those records |
| PageScraper.ScrapeEmailsFromPage | electron/scraper.js:81-121 | a page that fails gives no records; otherwise the records of its distinct regex matches |
| PageScraper.PageResultsCharacterised | electron/scraper.js:89-114 | the page's record emails are its distinct valid matches in first-occurrence order |
| PageScraper.Split | electron/scraper.js:182 | splitting gives at least one part and no part holds the separator |
| PageScraper.SplitJoin | electron/scraper.js:182 | joining the parts back gives the original text |
| PageScraper.MxDomain | electron/scraper.js:182 | the lookup domain exists iff the address holds an `@` |
| PageScraper.MxDomainPlace | electron/scraper.js:182 | the domain is the text between the first `@` and the next `@` or the end |
| PageScraper.VerifyEmailMx | electron/scraper.js:180-188 | true iff there is a domain and the lookup finds at least one record; a failing lookup is false |
| PageScraper.ScholarScraper.constructor | electron/scraper.js:7-13 | idle, not paused, no job |
| PageScraper.ScholarScraper.Pause | electron/scraper.js:198-200 | sets the paused flag only |
| PageScraper.ScholarScraper.Resume | electron/scraper.js:202-204 | clears the paused flag only |
| PageScraper.ScholarScraper.Stop | electron/scraper.js:206-212 | clears both flags and the current job |
| Ui.TruncateUrl | src/managers/UIManager.js:216-219 | unchanged when empty or short enough; otherwise a prefix of the URL then `...`, exactly `maxLength` long when `maxLength >= 3` |
| Ui.DefaultTruncation | src/managers/UIManager.js:216-219 | with the default width a long URL becomes its first 47 characters then `...` |
| Ui.Restatus | src/managers/UIManager.js:84-99 | entries whose URL matches take the status; all others are unchanged |
| Ui.RestatusTwice | src/managers/UIManager.js:84-99 | only the last status written counts |
| Ui.NonEmptyUrls | src/managers/UIManager.js:193-198 | exactly the non-empty item URLs |
| Ui.NonEmptyUrlsOrder | src/managers/UIManager.js:193-198 | the URLs keep the list order |
| Ui.Settled | src/managers/UIManager.js:101-115 | the settled count is at most the item count |
| Ui.UIManager.SetScrapingState | src/managers/UIManager.js:178-191 | Start disabled iff running, Pause and Stop disabled iff not running, the label "Resume" iff paused |
| Ui.UIManager.UpdateUrlStats | src/managers/UIManager.js:101-115 | the total is the item count and the processed count those completed or in error |
| Ui.UIManager.UpdateUrlStatus | src/managers/UIManager.js:84-99 | the matching items take the status, the others are unchanged, then the counters are refreshed |
| App.Urls | src/main.js:413-419 | the text of every queue entry, in order, empty ones included |
| App.Tick | src/main.js:393-411 | an await point consumes one operator action and changes only flags and trace; a stopped run stays stopped |
| App.Loop | src/main.js:300-323 | the loop's outcome stays within the queue and the timeline |
| App.Run | src/main.js:300-323 | a run that returns always ends in `stopScraping`: both flags clear and the display reset |
| App.RunAccounted | src/main.js:304-319 | progress reports are `(1, n)`, `(2, n)`, ... one per processed URL in queue order; a rate-limit wait only follows the report of a URL that was not the last; the store stays consistent |
| App.StopWhilePausedStillProcesses | src/main.js:305-311 | a stop pressed during the pause wait releases it; the URL at hand is still processed and reported before the loop leaves |
| App.LoopEndsEarlyOnlyOnStop | src/main.js:304-306 | the loop leaves before the end of the queue only after a stop; it hangs only while paused with no operator action left |
| App.ScholarScraperApp.constructor | src/main.js:8-19 | idle with an empty, consistent store |
| App.ScholarScraperApp.PauseScraping | src/main.js:393-398 | toggles the paused flag, so two calls restore it |
| App.ScholarScraperApp.StopScraping | src/main.js:400-411 | clears both flags |
| App.ScholarScraperApp.Handle | src/main.js:393-411 | an operator action applies the pause toggle or the stop |
| App.ScholarScraperApp.UpdateUrlStatus | src/main.js:421-432 | every entry whose text is the URL takes the status; the others are unchanged |
| App.ScholarScraperApp.ProcessUrl | src/main.js:325-344 | the entry turns "processing", then "completed" with its records offered to the store one by one, or "error" when processing throws |
| App.ScholarScraperApp.WaitWhilePaused | src/main.js:307-309 | the pause wait looks at the paused flag only and leaves the run as specified |
| App.ScholarScraperApp.RateLimitWait | src/main.js:317-319 | the rate-limit wait is one await point: it is recorded in the trace and lets at most one operator action take effect |
| App.ScholarScraperApp.Pass | src/main.js:305-319 | one pass of the loop body (pause wait, URL, progress report, rate-limit wait unless it was the last URL) is one step of the loop as specified, or the point where it hangs; the store stays consistent |
| App.ScholarScraperApp.ProcessUrls | src/main.js:304-320 | the `for` loop leaves flags, queue, store and trace exactly where the specified loop does, and says when it hangs in the pause wait; the store stays consistent |
| App.ScholarScraperApp.StartScraping | src/main.js:279-298 | a no-op while running or with an empty queue; otherwise flags, queue statuses, store and trace are those of the specified run; store consistency kept |
| Admin.CountActiveUsers | src/admin.js:140 | the active-user count is at most the user count, equal iff every user is active |
| Admin.ActiveLicenses | src/admin.js:142 | the active-licence count is at most the licence count, zero iff none is unrevoked and unexpired |
| Admin.LicenseStatus | src/admin.js:193-206 | "Revoked" iff revoked; "Expired" iff not revoked and expiring before now; "Active" otherwise |
| Admin.StatusAgainstCount | src/admin.js:142 | a counted licence shows "Active"; the badge and the count disagree only for a licence expiring exactly now |
| Admin.MaxOf | src/admin.js:310 | `Math.max` is minus infinity exactly for an empty list, otherwise the largest id |
| Admin.NextIdAsWritten | src/admin.js:310 | `Math.max(...ids) + 1`: minus infinity when no id is finite, otherwise above every id |
| Admin.AsWrittenIdsCollide | src/admin.js:310 | on an emptied list two users added in a row get the same id |
| Admin.NextId | src/admin.js:310 | the corrected next id is above every id and one more than the largest |
| Admin.NextIdAgrees | src/admin.js:310 | on a non-empty list the corrected id is the one the source computes |
| Admin.WithoutId | src/admin.js:388 | exactly the users without the id remain, each as many times as before, in their original order |
| Admin.Toggle | src/admin.js:408-416 | the first licence with the id flips its revoked flag; nothing changes when none has it |
| Admin.ToggleTwice | src/admin.js:408-416 | revoking twice restores the licences |
| Admin.CharAt | src/admin.js:367 | a draw in range gives that alphabet character, out of range nothing |
| Admin.KeyShape | src/admin.js:363-370 | a key is `SLS-` followed by characters from A-Z0-9, at most 20 long, exactly 20 when every draw is in range |
| Admin.GenerateLicenseKey | src/admin.js:363-370 | the loop appends one character per draw |
| Admin.AddKeepsRegistry | src/admin.js:303-318 | a user with a new name and the next id keeps ids and names unique |
| Admin.WithoutIdKeepsRegistry | src/admin.js:388 | deleting keeps ids and names unique |
| Admin.AdminPanel.constructor | src/admin.js:86-145 | three users with unique ids and names, two licences, counters computed from them |
| Admin.AdminPanel.HandleAddUser | src/admin.js:292-326 | no change on an empty trimmed name or password, nor on a taken name; otherwise an active user with the next id appended and the user counters updated; ids and names stay unique |
| Admin.AdminPanel.HandleGenerateLicense | src/admin.js:328-361 | the key is drawn first; an empty or unreadable expiry date throws and adds nothing; otherwise a new unrevoked licence with the next id and that key is appended and the licence counters are updated |
| Admin.AdminPanel.EditUser | src/admin.js:372-383 | the role changes only to "admin" or "operator", for the first user with the id |
| Admin.AdminPanel.DeleteUser | src/admin.js:385-394 | on confirmation, exactly the users with the id are removed, the rest keep their order, and the counters are updated |
| Admin.AdminPanel.RevokeLicense | src/admin.js:408-416 | the licence's flag flips and the active count is recomputed |
| Login.AccountOf | src/login.js:95-99 | exactly admin, operator and demo are known; admin has the admin role, the others operator |
| Login.ValidateLicenseKey | src/login.js:122-148 | "Invalid license format" iff no `SLS-` prefix; otherwise the demo licence valid for thirty days |
| Login.AuthenticateUser | src/login.js:90-120 | "Invalid username or password" for an unknown user or wrong password; then the licence error; success iff both pass, with the table's role |
| Login.HandleLogin | src/login.js:33-88 | "Please fill in all fields" on an empty trimmed name, password or key; with filled fields, success exactly when authentication succeeds and otherwise its error shown ("Login failed" for an empty one); on success the current user is stored and the credentials remembered only when asked |
| Login.CredentialsComeFirst | src/login.js:101-110 | with bad credentials the outcome does not depend on the licence key |
| Login.PasswordNeverStored | src/login.js:54-68 | what a login stores does not depend on the password |
| Login.GeneratedKeysAccepted | src/login.js:124 | every key the administration panel generates passes the login's licence check |

## Left out

- Browser automation, page navigation, search-link collection, cookies and user agents: they are I/O; pages are an oracle.
- DNS: the MX lookup is the `resolve` parameter.
- SQLite, local storage, `saveToStorage`, `loadFromStorage`, `importFromJSON` and `exportToJSON`: these are persistence, not decisions.
- The DOM: rendering, alerts and status texts. Only the queue items, the button states and the counters are kept.
- `updateProgress`: kept only as a trace event. Its percentage is floating point.
- `generateMockEmails`: its output is random, so it is the `extract`/`fetch` oracle.
- Random draws: they are an oracle of indices.
- Date parsing and formatting: instants are integers and dates are supplied strings. For this reason `exportWithStats` and the date range of the statistics text are not modelled.
- Admin.AdminPanel.HandleGenerateLicense: the expiry arrives already parsed, as an instant or None. Which date texts make `new Date(...).toISOString()` throw is not modelled; the throw itself is (None: nothing is added).
- `extendLicense` and `resetPassword`: they only move a date by months or touch `updated_at`.
- `filterResults` and the `getResultsBy…` filters: these are plain filters not named among the decisions modelled.
- `loadRememberedCredentials`: it only fills form fields.
- JSON: serialisation and parsing are parameters. A parse that yields a non-object is treated like one that fails.
- Base64.Decode: strict. Node's decoder also accepts unpadded and malformed input.
- Text.ToLower: folds ASCII letters only. That is all the exclusion words need, but DataStore.SearchResults also folds arbitrary names, journals and topics, where `toLowerCase` folds non-ASCII letters too (a query "é" finds "É" in the source, not in the model).
- DataStore.DataManager.UpdateResult: does not re-key the map when an update changes the email or source URL. The source does not either; DataStore.UpdateCanStaleTheMap shows the resulting staleness.
- DataStore.DataManager.AddResult: sets the duplicate flag on a returned copy. The caller's object is not mutated in place.
- Exports.ExportData: the JSON content is the `stringify` parameter applied to the data. The TXT date line is the `localeDate` parameter, and an absent email or source URL prints as "" where the source prints "undefined".
- App.ScholarScraperApp.ProcessUrl: an exception in processing is modelled only when raised before any record is added. Per-record DOM rendering is left out.
- Operator actions: both runs let at most one pause, resume or stop take effect per await point. Several presses between two awaits are not modelled.
- Restarting while a stopped run is still waiting: in the renderer a stop during the pause wait or the rate-limit wait re-enables Start, and a new `startScraping` begins a second `processUrls` while the first resumes with `isRunning` set again, so two loops interleave over the queue and the store. The same overlap exists in the controller: its `startScraping` guard (ScraperController.js:17) passes again after a stop, and the method replaces `this.queue` and `this.stats` while the first loop is still waiting; main.js never calls it. The operator actions have no Start, so this is not modelled.
- A run left paused with no operator action remaining is reported as suspended. It never returns.
- Ui.Settled: counts items whose status is exactly "completed" or "error". A status made of several class names is not split.
- Records.Tally, Exports.GenerateExportStats, Exports.SortByCountCorrect and DataStore.GetStats: the journal tally is a plain object in the source. Its keys are modelled in first-insertion order, but JavaScript lists integer-like keys (a journal "7") first, in numeric order, which changes the order of ties. A journal named after an `Object.prototype` member is also not modelled: "__proto__" is swallowed by the prototype setter, so the counts no longer sum to the record count, and "constructor" starts from a function and becomes a string.
- Controller.ScraperController.StartScraping: with `maxRetries` below 1 the source reads `message` of `undefined` and throws. This is the `Crashed` outcome, and only the flags are reset.

## Findings

| source | as written | input that shows it | evidently intended | confidence | as-written member | corrected member |
|---|---|---|---|---|---|---|
| src/admin.js:310 | the new user's id is `Math.max(...ids) + 1`, and `Math.max()` of no arguments is minus infinity | delete every user, then add two: both get id minus infinity (Admin.AsWrittenIdsCollide), and deleting one deletes both | a fresh id above every existing one, 1 for an empty list | not executed | Admin.NextIdAsWritten | Admin.NextId |
