# Web screenshot collection engine, modelled in Dafny

This project models the collection engine of a repository that gathers website
screenshots for vision-model fine-tuning. The engine appears in several near-identical
collectors. Each one:

- turns an ordered category table into URL targets;
- resolves each target's category: the first category that lists the URL, otherwise
  `'other'`;
- keeps the first *n* targets;
- drives each target through a capture step that may retry;
- keeps completed / failed / in-flight counters;
- appends each successful record to an in-memory list and writes the list one record per
  line.

The fine-tuning exporters then turn each usable record into exactly one training example,
built on a randomly chosen prompt.

There is one Dafny module per source file:

| module | source file | form |
|---|---|---|
| `Common` | shared JavaScript semantics | functions and lemmas |
| `Config` | `src/config.ts` | functions and lemmas |
| `Types` | `src/types.ts` | datatypes |
| `Screenshot` | `src/screenshot.ts` | class with an imperative capture method |
| `Collector` | `src/collector.ts` | class with progress counters and a metadata list |
| `CollectApi` | `src/collect-api.ts` | functions, plus a loop method |
| `CollectPuppeteer` | `src/collect-puppeteer.ts` | recursive retry function, plus a loop method |
| `MockCollector` | `src/mock-collector.ts` | class with a metadata list |
| `UrlGenerator` | `src/url-generator.ts` | Fisher–Yates shuffle on an array |
| `ServerCollector` | `server/src/services/screenshotCollector.ts` | class with a mutable status object |
| `DataProcessor` | `server/src/services/dataProcessor.ts` | loop method against a reference function |
| `Convert` | `src/convert-to-finetuning.ts` | loop method plus line splitting |

`Common` models the JavaScript semantics the engine relies on:

- truthiness of optional strings (`Truthy`);
- `slice(0, end)` with a negative `end`;
- `Math.floor(Math.random() * n)`;
- `toLowerCase`, `trim`, `split` and `join`;
- the decimal text of an index in a template literal;
- `error instanceof Error ? error.message : 'Unknown error'`.

The outside world enters as parameters:

- **Browsers, the screenshot API, the image library and the file system** are scripts of
  what each call yields or throws. Examples: `Screenshot.PageScript`,
  `CollectPuppeteer.Attempt`, `CollectApi.ApiInput` and `ServerCollector.UrlInput`.
- **Ids, timestamps and `Math.random()` draws** are parameters. A draw has the type
  `Common.Unit`, a real number in [0, 1).
- **`new URL(url).hostname`** is a partial function `hostOf`. It returns `None` where the
  constructor throws.
- **The random-comparator `sort`** is any permutation, given as a parameter.
- **The `p-limit` gate** of `src/collector.ts` is an interleaving of atomic `Start(i)` and
  `Finish(i)` steps. The gate's own guarantee is a precondition (`Collector.Completes`):
  - tasks start in order;
  - no more than `concurrency` tasks run at once;
  - every task settles.

  Each step updates the counters atomically, as JavaScript does between two `await`s.

Behaviours of the code worth noting:

- **Retries in `src/collector.ts`.** `captureScreenshot` turns every page failure into a
  returned record with `error` set, so `retry` (`src/collector.ts:82-92`) only re-runs
  after a thrown error. A thrown error comes from a
  missing browser, a rejected `newPage`, or a rejected `page.close()` inside the `catch`.
  `Collector.RetryFromSpec` states what `retry` does for any function.
- **Orphan image in the server collector.** `processUrl` writes the image before
  `new URL(url)` can throw. A URL without a host therefore leaves an image file behind and
  still counts as failed (`ServerCollector.ProcessUrlSpec`).
- **`getScreenshotFromAPI` never returns `null`.** Both its branches fall back to the
  placeholder. `processWebsite` fails only when the placeholder itself, the write or the
  host name fails.
- **Empty category names.** The server's `getCategoryForUrl` returns an empty category name
  as is. The `find(...)?.[0] || 'other'` form in the other collectors turns it into
  `'other'` (`Config.CategoryLabel` against `ServerCollector.CategoryFor`).
- **An empty metadata file fails conversion.** `''.trim().split('\n')` is `['']`, and
  `JSON.parse('')` throws. So the converter rejects the file that the API collector writes
  when it kept no record (`Convert.NoRecordsRejected`).

## Model

| member | source | states |
|---|---|---|
| Common.ErrorText | src/screenshot.ts:110 | the error text is the thrown `Error`'s message, and `'Unknown error'` for anything else |
| Common.ScaledIndex | src/url-generator.ts:154 | `floor(r * n)` for a draw `r` in [0, 1) is a valid index into `n` items |
| Common.SlicePrefix | src/collector.ts:32 | `slice(0, end)` keeps `min(end, len)` leading items, and for a negative `end` drops `-end` items from the back; the result is always a prefix |
| Common.ToLower | src/collect-api.ts:181 | lower-casing keeps the length and maps each character on its own |
| Common.ToLowerIdempotent | src/collect-api.ts:181 | lower-casing twice is lower-casing once |
| Common.Join | src/url-generator.ts:164 | `lines.join(sep)`: the empty list gives `""`, one line gives itself, and more lines start with the first line followed by the separator |
| Common.Split | src/convert-to-finetuning.ts:42 | `text.split(sep)`: at least one piece, none holding the separator; `SplitJoin` and `JoinSplit` tie it to `Join` |
| Common.SplitJoin | src/url-generator.ts:164 | splitting a joined list of separator-free lines gives the lines back |
| Common.JoinSplit | src/url-generator.ts:164 | joining the pieces of a split gives the text back |
| Common.Trim | src/convert-to-finetuning.ts:42 | `trim()` returns a substring that neither starts nor ends with JavaScript white space, and everything it cuts off before and after that substring is white space |
| Common.TrimKeeps | src/convert-to-finetuning.ts:42 | trimming a text that neither starts nor ends with white space changes nothing |
| Common.NatToStringInjective | server/src/services/screenshotCollector.ts:79 | different indices have different decimal texts |
| Common.IndexedNameInjective | server/src/services/screenshotCollector.ts:79 | a name built as prefix + index + suffix is unique per index |
| Config.AllUrls | src/config.ts:111-113 | `Object.values(table).flat()`: the category lists one after another, in table order; its length, order and members are stated by the three lemmas below |
| Config.AllUrlsLength | src/config.ts:111-113 | the flattened list has as many URLs as all category lists together |
| Config.AllUrlsAppend | src/config.ts:111-113 | flattening keeps category order: flattening two tables in sequence is concatenating their flattenings |
| Config.AllUrlsMember | src/config.ts:111-113 | a URL is in the flattened list exactly when some category lists it |
| Config.FirstIndex | src/collector.ts:41-43 | the index found is the first category, in table order, that lists the URL, and none is found exactly when no category lists it |
| Config.CategoryLabel | src/collector.ts:41-43 | the label is never empty; it is `'other'` when no category lists the URL, otherwise the first listing category's name when that name is not empty |
| Config.Tag | src/collect-api.ts:255-259 | the inner loop pairs each URL of one category with that category's name, in list order |
| Config.Pairs | src/collect-api.ts:254-259 | the (url, category) pairs the nested loops push, category by category; `PairsAppend` and `PairsFollowAllUrls` state its order and its tie to `AllUrls` |
| Config.PairsAppend | src/collect-api.ts:254-259 | the nested loops visit categories in table order |
| Config.PairsFollowAllUrls | src/collect-api.ts:254-259 | the pairs list the flattened URLs in the same order, each with a category that lists it |
| UrlGenerator.GetPopularWebsites | src/url-generator.ts:147 | the flattened list has the total length, and holds exactly the URLs that some category lists |
| UrlGenerator.Swap | src/url-generator.ts:155 | the destructuring swap exchanges two entries and leaves the others alone |
| UrlGenerator.SwapPermutes | src/url-generator.ts:155 | a swap keeps the multiset of entries |
| UrlGenerator.Partner | src/url-generator.ts:154 | the swap partner chosen at step `i` is at most `i`, so it is always in bounds |
| UrlGenerator.ShuffleFromPermutes | src/url-generator.ts:153-156 | the descending swap loop from step `i` keeps the length and the multiset |
| UrlGenerator.ShuffledPermutes | src/url-generator.ts:151-158 | the shuffle is a permutation of its input |
| UrlGenerator.Shuffled | src/url-generator.ts:151-158 | the reference order `shuffleUrls` leaves a list in: the swaps at positions `n - 1` down to 1, each with its drawn partner; `ShuffledPermutes` proves it a permutation |
| UrlGenerator.ShuffleUrls | src/url-generator.ts:151-158 | the method returns a fresh array, so the caller's array is untouched, holding the reference shuffle of the input, which is a permutation of it |
| UrlGenerator.SwapAt | src/url-generator.ts:155 | swapping in place leaves the array equal to the reference swap |
| UrlGenerator.UrlListText | src/url-generator.ts:164 | the text `saveUrlList` writes, the URLs joined by line feeds; `UrlListRoundTrip` proves it splits back into the list |
| UrlGenerator.UrlListRoundTrip | src/url-generator.ts:161-166 | the saved URL list splits back into the list; the empty list is saved as empty text |
| Screenshot.CaptureSpec | src/screenshot.ts:25-113 | a missing browser or a rejected `newPage` throws; every failing step, and a rejecting `page.close()` after a complete capture, sends the capture to the `catch`, whose own rejecting close is thrown; otherwise the `catch` returns the record with `error` set to the caught error's text, without a screenshot when a step failed and with it when only the first close rejected; every record carries the id, URL, category and timestamp; a capture that passed every step has the 1920×1080 viewport and the image name id + `.png` |
| Screenshot.ScreenshotCapture.constructor | src/screenshot.ts:10 | a new capture worker has no browser and no open page |
| Screenshot.ScreenshotCapture.Initialize | src/screenshot.ts:12-17 | after the launch the browser is ready, unless the launch failed, in which case the field keeps its old value |
| Screenshot.ScreenshotCapture.CaptureScreenshot | src/screenshot.ts:25-113 | the capture returns the reference record and awaits a close of every page it opens, on the success path and in the `catch` (twice when the first close rejects); the image is resized exactly when it got that far and was wider or taller than 2048 |
| Screenshot.ScreenshotCapture.Abort | src/screenshot.ts:107-111 | the `catch` closes the page; when that close rejects the rejection escapes, otherwise the partial record comes back tagged with the error text |
| Collector.RetryFrom | src/collector.ts:82-92 | `retry` from attempt `i`: no attempt left gives `null` with no call, a first call that succeeds is returned at once, and no more calls are made than attempts remain; `RetryFromSpec` states the rest |
| Collector.RetryFromSpec | src/collector.ts:82-92 | `retry` makes at most `attempts` calls and returns the first success; every earlier call threw; a throw on the last call is rethrown; before call `k + 1` it waits `delay * k`; it returns `null` exactly when `attempts <= 0` |
| Collector.ResumeStep | src/collector.ts:86-88 | a throw that is not on the last attempt continues with the next attempt after one wait of `delay * (i + 1)` |
| Collector.Retry | src/collector.ts:82-92 | the loop computes the reference retry run |
| Collector.RetryPolicyOnPersistentFailure | src/collector.ts:50-53 | with the configured policy, a capture that always throws is called 3 times, with waits of 1000 and 2000, and the last error is rethrown |
| Collector.Count | src/collector.ts:46 | a phase count never exceeds the number of tasks |
| Collector.CountUpdate | src/collector.ts:46 | changing one task's phase moves one unit between the two counts involved |
| Collector.CountTotal | src/collector.ts:37 | every task is queued, running or settled |
| Collector.CountUniform | src/collector.ts:39 | before the gate starts, every task is queued |
| Collector.LimiterStep | src/collector.ts:37-45 | a step the gate allows starts or settles exactly one task and never exceeds the concurrency limit |
| Collector.StepsCons | src/collector.ts:45-68 | one step counts as one start or one finish |
| Collector.StepsAppend | src/collector.ts:45-68 | start and finish counts add up over consecutive stretches of steps |
| Collector.StepsPrefix | src/collector.ts:45-68 | a prefix of the schedule has no more starts or finishes than the whole schedule |
| Collector.CompletesCounts | src/collector.ts:72 | a schedule that lets every task settle starts each queued task once and finishes each queued or running task once |
| Collector.Targets | src/collector.ts:31-33 | a truthy `limit` keeps `min(limit, len)` URLs; an absent or zero `limit` keeps them all; the targets are always a prefix of the flattened table |
| Collector.TaskResults | src/collector.ts:39-53 | there is one retried capture result per target |
| Collector.PrefixSnoc | src/collector.ts:45-68 | one more step adds that step's record, and one start or one finish |
| Collector.HarvestUsable | src/collector.ts:55-57 | only results that came back without an error are appended |
| Collector.UsableRecords | src/collector.ts:97 | the filter keeps only error-free records, each taken from the list |
| Collector.UsableRecordsAppend | src/collector.ts:96-98 | the filter keeps list order |
| Collector.UsableRecordsKeepAll | src/collector.ts:96-98 | a list of error-free records is saved whole |
| Collector.ExampleFor | src/collector.ts:114-139 | an example references `screenshots/<filename>` and carries the record's category, title and elements; the description falls back to `'a web interface'` |
| Collector.Examples | src/collector.ts:112-141 | the loop succeeds exactly when every record has an image, and then yields one example per record, in order |
| Collector.WebsiteCollector.constructor | src/collector.ts:8-20 | a new collector has zero counters, no records, no files and a worker with no browser |
| Collector.WebsiteCollector.Initialize | src/collector.ts:22-28 | initialising launches the worker's browser |
| Collector.WebsiteCollector.CollectAll | src/collector.ts:30-80 | `total` is the number of targets; the records kept are the error-free results, in the order tasks settle; `completed` grows by their number and `completed + failed` by `total`; `inProgress` returns to its old value; the call rejects exactly with a rejected metadata write; when the write succeeds the saved file is the error-free records, otherwise the file is unchanged; from a fresh collector, `completed + failed == total`, `inProgress == 0` and `metadata.length == completed` |
| Collector.WebsiteCollector.RunEvents | src/collector.ts:39-72 | running the whole schedule appends the harvested records and moves every target into `completed` or `failed`; the invariant `completed + failed + inProgress` never exceeds its start value plus the number of targets holds at every step |
| Collector.WebsiteCollector.RunStep | src/collector.ts:45-68 | a start raises `inProgress` by one; a finish lowers it by one and raises exactly one of `completed` and `failed` |
| Collector.WebsiteCollector.Admit | src/collector.ts:46 | entering a task raises `inProgress` by one and changes nothing else |
| Collector.WebsiteCollector.Settle | src/collector.ts:55-68 | a settled task raises `completed` and appends its record when the result is non-null and error-free; otherwise it raises `failed`; either way `inProgress` drops by one |
| Collector.WebsiteCollector.SaveMetadata | src/collector.ts:94-101 | when the write succeeds the file holds one line per error-free record, in list order; a rejected write is passed on and leaves the file unchanged |
| Collector.WebsiteCollector.GetProgress | src/collector.ts:104-106 | the caller gets a value copy of the counters |
| Collector.WebsiteCollector.ExportForFineTuning | src/collector.ts:108-148 | the export is written exactly when every error-free record has an image and the write succeeds; it then holds one example per error-free record, in order; otherwise the old file stays |
| CollectApi.FirstMatchPicksFirst | src/collect-api.ts:182-188 | the chain of checks returns the type of the first rule that matches |
| CollectApi.FirstMatchNone | src/collect-api.ts:188 | when no rule matches, the type is `general` |
| CollectApi.FirstMatchGeneral | src/collect-api.ts:182-188 | when no rule's type is `general`, a `general` result means that no rule matched |
| CollectApi.InferPageType | src/collect-api.ts:180-189 | the type is always one of `login`, `search`, `product`, `article`, `video`, `checkout` and `general` |
| CollectApi.MatchesPair | src/collect-api.ts:182 | a two-keyword rule matches when either keyword occurs |
| CollectApi.MatchesSingle | src/collect-api.ts:183 | a one-keyword rule matches when its keyword occurs |
| CollectApi.InferPageTypeIsFirstMatch | src/collect-api.ts:180-189 | the guess is the first-match reading over the lower-cased URL |
| CollectApi.InferPageTypeFirstRule | src/collect-api.ts:180-189 | the result is `general` exactly when no keyword occurs; otherwise it is the type of the first matching rule |
| CollectApi.LoginBeforeCheckout | src/collect-api.ts:182-187 | a URL holding both `login` and `cart` is a `login` page |
| CollectApi.InferPageTypeIgnoresCase | src/collect-api.ts:181 | the guess does not depend on letter case |
| CollectApi.GetScreenshotFromApi | src/collect-api.ts:137-166 | without a key the result is the placeholder; with a key it is the API image, or the placeholder when the request fails; it never fails unless the placeholder does |
| CollectApi.ProcessWebsite | src/collect-api.ts:192-243 | the image is written exactly when an image was obtained and the write succeeded; a record is returned exactly when also the host name parses, and it then has the id, URL and category, the name id + `.jpg`, the host name as title, the 1024×768 viewport and the guessed page type |
| CollectApi.BuildTargets | src/collect-api.ts:254-259 | the nested loops build the reference (url, category) pairs |
| CollectApi.Reorder | src/collect-api.ts:262 | reordering by a permutation keeps the length and places entry `order[k]` at `k` |
| CollectApi.Tasks | src/collect-api.ts:262-268 | at most `targetCount` pairs are processed, exactly `min(targetCount, pairs)` for a non-negative count, each one of the table's pairs |
| CollectApi.Saved | src/collect-api.ts:270-273 | no more records are kept than tasks settle |
| CollectApi.SavedRecords | src/collect-api.ts:268-277 | every kept record is the non-null result of some processed pair; when every pair succeeds, every pair is kept |
| CollectApi.SavedEveryRecord | src/collect-api.ts:268-277 | conversely, every settled task that returned a record has that record kept |
| CollectApi.RunTasks | src/collect-api.ts:268-277 | pushing the non-null results in settling order builds the reference list |
| CollectApi.CollectScreenshots | src/collect-api.ts:246-290 | a throwing `ensureDirectoryExists` rejects the call before anything else and no file is written; otherwise the file is written exactly when the synchronous write does not throw, and then holds the reference list, with no more lines than processed targets; a throwing write is the call's rejection |
| CollectPuppeteer.RecordOf | src/collect-puppeteer.ts:205-221 | a record has the attempt's id, the URL and category, the name id + `.jpg`, the 1024×768 viewport, and a title that is `document.title` or `'Untitled'` when that is empty |
| CollectPuppeteer.ProcessWebsite | src/collect-puppeteer.ts:133-239 | `processWebsite` from attempt `attempt`: it opens no page exactly when that attempt's `newPage` rejects, and once that page is open a rejecting close of it decides the call; the retry chain and its outcomes are stated by the lemmas below |
| CollectPuppeteer.ProcessWebsiteCounts | src/collect-puppeteer.ts:133-239 | at most the remaining attempts plus one pages are opened; when every page closes cleanly a rejection comes from the `newPage` after the last page, with one wait per page; a call that does not reject had every page close cleanly and waited once per retry; a returned record comes from the last attempt |
| CollectPuppeteer.ProcessWebsitePages | src/collect-puppeteer.ts:133-239 | no more pages are opened than attempts are allowed |
| CollectPuppeteer.ProcessWebsiteThrown | src/collect-puppeteer.ts:133-239 | with every page closed cleanly, a rejection is the `newPage` rejection of the attempt after the last page, with one wait per page |
| CollectPuppeteer.ProcessWebsiteSettled | src/collect-puppeteer.ts:133-239 | a call that does not reject had every page close cleanly and waited once per retry, and its record comes from the last page's attempt |
| CollectPuppeteer.ProcessWebsiteCloses | src/collect-puppeteer.ts:226-238 | a rejecting `page.close()` in a `finally` decides the call: it rejects with the close error of the earliest attempt whose close rejects, even though later attempts were started from inside its `catch` |
| CollectPuppeteer.ProcessWebsiteWaits | src/collect-puppeteer.ts:231 | every wait before a retry is the constant `retryDelay` |
| CollectPuppeteer.ProcessWebsiteRetries | src/collect-puppeteer.ts:226-233 | every attempt before the last one failed inside the `try` |
| CollectPuppeteer.ProcessWebsiteNull | src/collect-puppeteer.ts:229-238 | `null` comes back exactly when every allowed attempt opened a page, the last one failed, and every page closed cleanly |
| CollectPuppeteer.AtMostThreePages | src/collect-puppeteer.ts:17-18 | from attempt 1 a site is driven at most 3 times, with waits of 2000 |
| CollectPuppeteer.PersistentFailure | src/collect-puppeteer.ts:229-238 | a site that always fails, and whose pages close cleanly, opens 3 pages, waits twice and yields `null` |
| CollectPuppeteer.Settle | src/collect-puppeteer.ts:279-288 | `Promise.all` over the tasks taken in settling order: an empty batch resolves to `[]`, a rejection of the first task to settle is the batch's rejection, and a resolved batch holds no more records than tasks settled; the lemmas below state which records and which rejection |
| CollectPuppeteer.SettleSpec | src/collect-puppeteer.ts:279-288 | the batch resolves exactly when no task rejects; it then holds no more records than tasks settled, each named after its id |
| CollectPuppeteer.SettleKept | src/collect-puppeteer.ts:279-288 | every record of a resolved batch is the record some settled task returned |
| CollectPuppeteer.SettleKeepsEvery | src/collect-puppeteer.ts:279-288 | a resolved batch keeps the record of every task that returned one |
| CollectPuppeteer.SettleRejects | src/collect-puppeteer.ts:279-288 | a rejected batch rejects with the error of the first task, in settling order, that rejected, and every task settled before it resolved |
| CollectPuppeteer.SettleFrom | src/collect-puppeteer.ts:280-284 | the batch from one task on is that task's record, if any, before the rest; a rejection ends it |
| CollectPuppeteer.PrependPrepend | src/collect-puppeteer.ts:283 | pushing records one after another is pushing them together |
| CollectPuppeteer.RunBatch | src/collect-puppeteer.ts:279-295 | the file is written exactly when the batch resolves and the write does not throw, and it holds the batch's records; the call rejects with the first task rejection, else with the write's |
| CollectPuppeteer.CollectScreenshots | src/collect-puppeteer.ts:242-305 | a throwing `ensureDirectoryExists` rejects the call before the launch, with no file and no browser close; otherwise the file is written exactly when the browser launched, no task rejected and the write did not throw; a failed launch is the rejection; once launched the browser is closed exactly once, and a rejecting `browser.close()` replaces the outcome, which is otherwise the batch's or the write's rejection |
| MockCollector.Spread | src/mock-collector.ts:43 | `floor(r * span) + low` lies in [low, low + span) |
| MockCollector.MockElements | src/mock-collector.ts:45-51 | the element counts lie in their ranges: buttons 5–24, links 10–59, forms 1–5, images 5–34, inputs 3–17 |
| MockCollector.Capitalize | src/mock-collector.ts:34 | upper-casing the first letter keeps the length and the rest |
| MockCollector.MockFilenamesUnique | src/mock-collector.ts:40 | `mock-<i>.png` is unique per index |
| MockCollector.MockRecord | src/mock-collector.ts:31-52 | the mock record of target `i`, built from its URL, host name and draws; `MockRecordFields` states each of its fields |
| MockCollector.MockRecordFields | src/mock-collector.ts:31-52 | a record has its id, timestamp, URL and category, the capitalised category plus `" Website - "` plus host name as title, 1920×1080, the name of its index, no error and its random fields in range (file size 500000–1499999) |
| MockCollector.MockRecords | src/mock-collector.ts:24-56 | one record per processed target |
| MockCollector.MockRecordsAt | src/mock-collector.ts:24-56 | the `k`-th record is made from the `k`-th target and its inputs |
| MockCollector.MockImagesDistinct | src/mock-collector.ts:40 | no two records of one run share an image |
| MockCollector.MockTargets | src/mock-collector.ts:19-20 | the targets are the first `min(limit, len)` URLs of the flattened table |
| MockCollector.ParsedPrefix | src/mock-collector.ts:34 | the run gets through exactly the leading targets whose host name parses |
| MockCollector.MockRecordsSnoc | src/mock-collector.ts:54 | one more iteration appends exactly that target's record |
| MockCollector.MockExampleFor | src/mock-collector.ts:72-100 | an example references `mock-image-<id>` and carries the record's category, title, elements and description |
| MockCollector.MockCollector.constructor | src/mock-collector.ts:11 | a new collector has no records and no files |
| MockCollector.MockCollector.CollectMockData | src/mock-collector.ts:18-60 | one record per target is appended, in order; the call gets through the loop exactly when every host parses; it then writes the metadata file and, if that write succeeds, the export, holding one example per record; the first rejected write is the call's rejection and leaves its file and the later one unchanged |
| MockCollector.MockCollector.MakeRecords | src/mock-collector.ts:24-56 | the loop appends the reference records and stops at the first URL whose host does not parse |
| MockCollector.MockCollector.Push | src/mock-collector.ts:54 | a push appends one record |
| MockCollector.MockCollector.SaveMetadata | src/mock-collector.ts:62-67 | when the write succeeds the file holds every record, in order; a rejected write is passed on and leaves the file unchanged |
| MockCollector.MockCollector.ExportForFineTuning | src/mock-collector.ts:69-112 | when the write succeeds the export holds exactly one example per record, in order; a rejected write is passed on and leaves the file unchanged |
| ServerCollector.CollectionStatus.constructor | server/src/services/screenshotCollector.ts:37-44 | a new status has zero counters, no screenshots and is not in progress |
| ServerCollector.FilenamesUnique | server/src/services/screenshotCollector.ts:79 | `screenshot_<index>.jpg` is unique per index |
| ServerCollector.RecordIdsUnique | server/src/services/screenshotCollector.ts:88 | `<jobId>_<index>` is unique per index |
| ServerCollector.TargetUrls | server/src/services/screenshotCollector.ts:56-57 | the targets are a prefix of the custom URLs when there are any, otherwise of the default table; a non-negative `count` keeps `min(count, len)` |
| ServerCollector.CategoryFor | server/src/services/screenshotCollector.ts:157-164 | the category is the first one, in table order, that lists the URL, otherwise `'other'` |
| ServerCollector.GetScreenshot | server/src/services/screenshotCollector.ts:104-129 | without a truthy key the placeholder is used; with one, the API image or, when the request fails, the placeholder |
| ServerCollector.ProcessUrlSpec | server/src/services/screenshotCollector.ts:76-102 | a file is written exactly when an image was obtained and the write succeeded; a record is kept exactly when also the host parses, with id `<jobId>_<index>`, the host as title, the URL's category and `screenshot_<index>.jpg` |
| ServerCollector.AfterCounts | server/src/services/screenshotCollector.ts:61-64 | after `n` URLs, `completed` grew by the successes and `failed` by the rest, and the screenshots grew by the kept records |
| ServerCollector.RecordsInOrder | server/src/services/screenshotCollector.ts:96 | every kept record comes from one processed index and carries that index's id and file name |
| ServerCollector.FilesKept | server/src/services/screenshotCollector.ts:84 | every image written stays under its own name with its content |
| ServerCollector.OtherFilesUnchanged | server/src/services/screenshotCollector.ts:84 | files under other names are untouched |
| ServerCollector.ScreenshotCollector.constructor | server/src/services/screenshotCollector.ts:33-45 | a new job keeps its id and key and starts with a fresh zero status |
| ServerCollector.ScreenshotCollector.Emit | server/src/services/screenshotCollector.ts:171-173 | an emission sends a copy of the current status |
| ServerCollector.ScreenshotCollector.GetStatus | server/src/services/screenshotCollector.ts:175-177 | the caller gets the live status object |
| ServerCollector.ScreenshotCollector.GetCategoryForUrl | server/src/services/screenshotCollector.ts:157-164 | the loop with early return computes the first listing category, else `'other'` |
| ServerCollector.ScreenshotCollector.ProcessUrl | server/src/services/screenshotCollector.ts:76-102 | one URL raises exactly one of `completed` and `failed`, appends a record only on success, and writes its image when it got one |
| ServerCollector.ScreenshotCollector.StartCollection | server/src/services/screenshotCollector.ts:47-74 | `inProgress` is set before any work and cleared on every path; a failed directory creation processes nothing and leaves the counters alone; otherwise `total` is the target count, the URLs are processed in index order with one emission each, and the metadata holds the screenshots; from a fresh status, `completed + failed == total` and `screenshots.length == completed` |
| ServerCollector.ScreenshotCollector.RunTargets | server/src/services/screenshotCollector.ts:61-64 | the index loop processes every target in order and emits once after each |
| DataProcessor.ExampleFor | server/src/services/dataProcessor.ts:40-66 | an example has exactly three messages: system, user (prompt and image), assistant (about the record's category and title) |
| DataProcessor.Usable | server/src/services/dataProcessor.ts:17 | skipping leaves only error-free records, each taken from the list |
| DataProcessor.UsableExactly | server/src/services/dataProcessor.ts:17 | a record is exported exactly when its `error` is unset or empty |
| DataProcessor.Generate | server/src/services/dataProcessor.ts:16-67 | the reference reading of the export loop: no records give no examples, and never more examples than records; the lemmas below give the exact count, each example and the failure that stops it |
| DataProcessor.GenerateOk | server/src/services/dataProcessor.ts:16-67 | the export succeeds exactly when every error-free record's image can be read |
| DataProcessor.GenerateLast | server/src/services/dataProcessor.ts:16-67 | a successful run extends the run over the earlier records by the last record's example, or by nothing when it is skipped |
| DataProcessor.GenerateLength | server/src/services/dataProcessor.ts:74-77 | the count equals the number of error-free records |
| DataProcessor.GenerateExamples | server/src/services/dataProcessor.ts:16-67 | example `k` is built from the `k`-th error-free record's image with the `k`-th draw, a prompt index in [0, 3), keeping record order |
| DataProcessor.GenerateStopsAtFailure | server/src/services/dataProcessor.ts:20 | once an image read fails, the call rejects with that failure |
| DataProcessor.GenerateFineTuningData | server/src/services/dataProcessor.ts:5-78 | a failed metadata read or image read or write rejects; otherwise the reference examples are written and the call returns `success: true`, their count (the number of error-free records) and `<uploadsDir>/finetuning_data.jsonl` |
| Convert.ImageToBase64 | src/convert-to-finetuning.ts:135-144 | a readable image gives its base64 text, an unreadable one the fixed placeholder |
| Convert.MetadataLines | src/convert-to-finetuning.ts:42 | the trimmed content splits into at least one line, none holding a line feed |
| Convert.ParseLine | src/convert-to-finetuning.ts:43 | `JSON.parse` of one line: the empty line never parses, and any other line parses as the parser says |
| Convert.ParseAll | src/convert-to-finetuning.ts:43 | either every line parses, giving one record per line in order, or the first line that does not parse is reported |
| Convert.ExampleFor | src/convert-to-finetuning.ts:76-102 | an example has three messages: system, the prompt with the image as a data URL, and the answer about the category, title and page type |
| Convert.ExampleAt | src/convert-to-finetuning.ts:50-103 | example `k` uses the `k`-th record and a prompt index in [0, 4) |
| Convert.ConvertToFineTuning | src/convert-to-finetuning.ts:27-133 | a missing metadata file exits with code 1 before reading or writing; a failed step rejects; otherwise exactly one example per line is written, with no error filtering, using `dataset/<filename>` |
| Convert.EmptyMetadataRejected | src/convert-to-finetuning.ts:41-43 | blank metadata fails at its first line |
| Convert.EncodedLines | src/collect-api.ts:280-282 | one encoded line per record |
| Convert.SavedLines | src/convert-to-finetuning.ts:41-42 | trimming and splitting the saved text gives back its lines |
| Convert.SavedTextRoundTrip | src/convert-to-finetuning.ts:41-43 | reading what the API collector saved gives back its records, in order, when it saved at least one |
| Convert.NoRecordsRejected | src/convert-to-finetuning.ts:41-43 | the empty file saved for no records is rejected |

## Left out

- File system, network, browser, `sharp` and axios calls that the engine awaits or makes
  synchronously: each is a parameter saying how the call settles (including every
  metadata and export write, the `ensureDirectoryExists` setup of both standalone
  collectors, and every page and puppeteer browser close). The JSON text and the prompt wording are
  abstracted to the fields and the prompt index they are built from.
- CollectPuppeteer.ProcessWebsite: the order in time of a retry and the earlier attempt's
  page close is not modelled. The retry is returned without `await`, so the earlier page
  closes while the retry is still running. When that close rejects, the call rejects at
  once, and the retry runs on with its own outcome, including any rejection, left
  unhandled. The model still counts the retry's pages and waits in that case, and it does
  not model the unhandled rejection.
- Partial writes: a write that rejects is modelled as leaving its file as it was.
- The `mkdir` and the write of `saveUrlList`: the model gives the text it writes; a
  rejection of either call is not modelled.
- Console output and `process.exit` messages: they do not affect state.
- `ScreenshotCapture.close` and the browser close in `collectAll`: an external call with
  no modelled state; a rejection of that close is not modelled.
- `initialize` directory creation in `src/collector.ts` and `src/mock-collector.ts`:
  file-system calls whose only effect is on the outside world; their rejection is not
  modelled.
- `emitStatus` transport: the socket server is not part of this model. An emission is
  recorded as a copy of the status at that moment.
- `saveMetadata` of the server collector: a `saveOk` flag decides whether
  `metadata.json` is written.
- `path.join`: modelled as string concatenation for the plain names used.
- `generatePlaceholder` and `getMockScreenshot`: the placeholder image is a parameter
  saying whether it could be rendered.
- `generateId`, `randomUUID` and `new Date().toISOString()`: given as parameters.
- The puppeteer page-script evaluation (description, element flags, DOM page type): its
  results are part of each attempt's script.
- The static URL tables: the model takes the ordered category table as a parameter and
  does not check its contents.
- Real timers: waits are kept only as their delay values.
- The `p-limit` gate: its guarantee is the precondition `Collector.Completes`, not
  verified.
- The random-comparator `sort`: given as any permutation; the bias of the comparator is
  not modelled.
- `new URL(url).hostname`: a partial function parameter; URL syntax is not modelled.
- `toLowerCase` and `toUpperCase`: modelled on ASCII letters only.
- Collector.WebsiteCollector.CollectAll: says how the counters change across one call;
  the closed equalities (`completed + failed == total`, `inProgress == 0`,
  `metadata.length == completed`) are stated for a fresh collector only, because a second
  call keeps the counters of the first.
- ServerCollector.ScreenshotCollector.StartCollection: the closed equalities are stated
  for a fresh status only, for the same reason.
- Routes, the in-memory job map, zip packaging, the React client and the demo and entry
  scripts: transport, UI and command-line glue outside the engine.
