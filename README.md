# A verified model of the webmaster Telegram bot's core

The bot downloads whole websites for Telegram users. This project models in
Dafny the parts of it that keep state or make decisions, one module per
source file, and proves what those parts promise:

- `QueueManager` (services/queue_manager.py): the download scheduler.
  - Pending tasks are served by priority, then by creation time.
  - Running and finished tasks each have a registry.
  - Each owner may have at most five tasks running or pending.
  - Failed tasks are retried with a capped linear back-off.
  - Owners can cancel, and a server can cancel any task.
  - The finished registry is halved when it grows past 1000 entries.
- `CacheManager` (services/cache_manager.py): the result cache.
  - A memory tier of at most 100 entries evicts the oldest entry first.
  - A disk tier holds descriptors and data files.
  - Validity is a time-to-live check made lazily, when an entry is read.
  - Hit and miss counters are kept.
  - Cache keys do not depend on the order of the options.
- `Downloader` (services/downloader.py): the crawler's bookkeeping.
  - It records which URLs have been visited.
  - It decides which files are written, under which names.
  - It keeps the file and byte counters, the ten-link cap and the size ceiling.
  - The browser, the HTTP client, the HTML parser and the URL functions are an
    oracle value `Web`.
- `BaseHandler` (bot/handlers/base_handler.py): the per-user moderation state.
  - A sliding-window rate limiter.
  - Warnings, with an automatic ban at three.
  - The ban set.
  - The suspicious-activity detector.
  - The URL string checks.
  - A child handler shares its parent's containers, so those containers form
    one `Moderation` object.
- `BotHandlers` (bot/handlers.py): what only the monolithic handler has.
  - The one-download-per-user gate of `start_download` and `cancel`.
  - The state effects of `ban_command`, `unban_command` and
    `cleanup_command`.
  - Its moderation methods (bot/handlers.py:86-173) are the same code as
    bot/handlers/base_handler.py:91-178, so they are modelled once, by
    `BaseHandler.Moderation`.
- `SecurityManager` (services/security_manager.py):
  - rate limits per user and action, with caps that depend on the action;
  - a failed-attempt lockout that expires;
  - a bounded threat history, and permanent blocks for critical threats;
  - the URL and input checks and how their verdicts combine.
- `Helpers` (utils/helpers.py): the pure helpers for file names, extensions,
  sizes, domains and durations.
- `Monitoring` (services/monitoring.py): the collector's bounded histories
  and counters, and the percentile, rate and top-errors figures computed
  from them.

Two shared modules support these:

- `Common`: Option, a stable insertion sort, the sliding-window filter
  `Recent`, and the prune of a map of windows.
- `PyStr`: the Python string semantics the code relies on:
  - `lower`, folded on ASCII letters only (see "## Left out");
  - `startswith`, `endswith` and `in`;
  - lexicographic `<`;
  - `strip`;
  - `str(int)`, with a parse round trip.

Some common conventions:

- **The clock.** It is always a parameter `now`, in whole seconds.
- **Foreign calls.** These are parameters or fields of an oracle value:
  - `urlparse`;
  - `re.search`;
  - `ipaddress`;
  - SHA-256 over JSON;
  - Playwright and aiohttp.
- **Asyncio.** Work that the source runs concurrently is a sequence of method
  calls. Each call's outcome is an input.

`Helpers.IsValidUrl`, `IsSameDomain`, `GetFileExtension`, `IsSupportedFile`
and `IsLargeFile` are predicates stated directly from the source. The lemmas
listed below state their properties.

## Model

| member | source | states |
|---|---|---|
| QueueManager.LessIsStrictOrder | services/queue_manager.py:18-55 | URGENT, HIGH, NORMAL, LOW rank in that order, and a task of a more urgent priority precedes whatever the creation times; the heap order is irreflexive, asymmetric and transitive; tasks it cannot order have equal priority and creation time |
| QueueManager.BackoffDelay | services/queue_manager.py:332 | the retry delay never exceeds 30 s, is never negative, is 5 s per retry up to six retries and 30 s from then on |
| QueueManager.AfterFailure | services/queue_manager.py:322-340 | a failure adds one retry and records the error; the task returns to PENDING, with no start time, exactly when the new count is still within `max_retries`, and otherwise becomes FAILED; no other field changes |
| QueueManager.FailuresExhaustRetries | services/queue_manager.py:322-340 | after n consecutive failures the retry count has grown by n, the last error is kept, and the task is PENDING exactly while the count is within `max_retries` |
| QueueManager.FourAttempts | services/queue_manager.py:322-340 | with the default of 3 retries a failing task is attempted four times: it is FAILED only after the fourth failure |
| QueueManager.IndexOf | services/queue_manager.py:166-167 | the pending scan finds the position of the id, or reports that the id is not pending |
| QueueManager.CountOwned | services/queue_manager.py:241-255 | the counting loop returns the number of the owner's tasks in a collection |
| QueueManager.CollectOwned | services/queue_manager.py:208-215 | the collecting loop returns exactly the owner's tasks of a collection, in order |
| QueueManager.QuotaAdd | services/queue_manager.py:109-114 | adding a task for an owner under the quota keeps every owner within the quota of 5 |
| QueueManager.QuotaDispatch | services/queue_manager.py:281-293 | moving a task from pending to running keeps every owner within the quota |
| QueueManager.QuotaRequeue | services/queue_manager.py:333-334 | pushing a retried task back on the pending queue keeps every owner within the quota |
| QueueManager.QuotaDrop | services/queue_manager.py:142-182 | removing a task from running or pending keeps every owner within the quota |
| QueueManager.RecentCompletedNewestFirst | services/queue_manager.py:217-223 | `get_user_tasks` reports at most 10 finished tasks, newest completion first |
| QueueManager.RecentCompletedOwned | services/queue_manager.py:218-221 | every finished task reported belongs to the asking owner and is in the completed registry |
| QueueManager.OldestHalfIsOldest | services/queue_manager.py:356-363 | the cleanup selects `len // 2` entries of the completed registry, none newer (by completion time, else creation time) than any entry kept |
| QueueManager.MinPos | services/queue_manager.py:281 | the dispatched task is one no other pending task precedes in the heap order |
| QueueManager.InvAdd | services/queue_manager.py:105-136 | adding a task under the quota keeps the queue invariant (consistent registries, at most `max_concurrent` running, quota) |
| QueueManager.InvDispatch | services/queue_manager.py:269-293 | dispatching while a slot is free keeps the invariant, and so the running count never exceeds `max_concurrent` |
| QueueManager.InvFinish | services/queue_manager.py:342-349 | the `finally` clause keeps the invariant |
| QueueManager.InvRequeue | services/queue_manager.py:326-349 | re-queueing a retried task and then running `finally` keeps the invariant |
| QueueManager.InvStop | services/queue_manager.py:142-163 | cancelling a running task keeps the invariant |
| QueueManager.InvDequeue | services/queue_manager.py:166-174 | taking a task off the pending queue keeps the invariant |
| QueueManager.InvRecord | services/queue_manager.py:176-178 | recording a task as completed keeps the invariant |
| QueueManager.InvAdvance | services/queue_manager.py:297-334 | a job moving between executing and sleeping before a retry keeps the invariant |
| QueueManager.InvForget | services/queue_manager.py:317-320 | a cancelled job ending keeps the invariant |
| QueueManager.InvCleanup | services/queue_manager.py:351-367 | deleting entries from the completed registry keeps the invariant |
| QueueManager.DownloadQueue.constructor | services/queue_manager.py:60-72 | an empty queue, `max_concurrent` defaulting to 3 when given 0, all counters zero |
| QueueManager.DownloadQueue.GetUserPendingCount | services/queue_manager.py:241-255 | the owner's running plus pending tasks, completed ones not counted |
| QueueManager.DownloadQueue.AddTask | services/queue_manager.py:105-136 | at the quota the call fails and nothing changes; otherwise exactly one new PENDING task is stored and queued, the owner's list and the total count grow by one, and nothing else changes |
| QueueManager.DownloadQueue.ProcessPendingTasks | services/queue_manager.py:269-295 | with no free slot or nothing pending nothing changes; otherwise exactly the heap-minimum pending task moves to running, RUNNING and started now |
| QueueManager.DownloadQueue.StartPending | services/queue_manager.py:281-295 | the popped task leaves the pending queue, is marked running at `now`, joins the running tasks with a fresh job, the queue invariant holds, and nothing else changes |
| QueueManager.DownloadQueue.BeginExecution | services/queue_manager.py:297-302 | a started job begins executing; no task or registry changes |
| QueueManager.DownloadQueue.CompleteAttempt | services/queue_manager.py:297-349 | success: COMPLETED, progress 100, counted, moved to the completed registry; failure with retries left: the failed task sleeps `min(retry*5, 30)` s and stays running; failure without: FAILED, counted, moved to the completed registry |
| QueueManager.DownloadQueue.EndBackoff | services/queue_manager.py:331-349 | after the sleep the task is pushed back on the pending queue and, by `finally`, also leaves running and is (re)recorded as completed |
| QueueManager.DownloadQueue.ObserveCancel | services/queue_manager.py:317-320 | a job cancelled before it ran changes nothing; one cancelled while executing is CANCELLED and counted a second time; one cancelled while sleeping only runs `finally` |
| QueueManager.DownloadQueue.Finish | services/queue_manager.py:342-349 | the task leaves running and is recorded in the completed registry, with its final fields |
| QueueManager.DownloadQueue.CancelTask | services/queue_manager.py:138-184 | an unknown id, or a non-zero user who is not the owner, gets false and nothing changes; otherwise the task becomes CANCELLED, completed now and counted, and a running one leaves running (its job asked to stop) while a pending one leaves the queue |
| QueueManager.DownloadQueue.StopRunning | services/queue_manager.py:142-159 | the task leaves the running registry and its job is asked to stop |
| QueueManager.DownloadQueue.Dequeue | services/queue_manager.py:173-174 | exactly the chosen task leaves the pending queue |
| QueueManager.DownloadQueue.RecordCancelled | services/queue_manager.py:154-161 | the task is CANCELLED, completed now, recorded as completed and counted once |
| QueueManager.DownloadQueue.GetTaskStatus | services/queue_manager.py:186-201 | a task is found exactly when it is running, completed or pending, and the reported task is the stored one |
| QueueManager.DownloadQueue.GetUserTasks | services/queue_manager.py:203-225 | the owner's running tasks, then its pending tasks, then its 10 most recently completed ones |
| QueueManager.DownloadQueue.CleanupCompletedTasks | services/queue_manager.py:351-367 | at most 1000 entries: nothing changes; more: exactly the oldest half is deleted, and nothing else changes |
| QueueManager.DeleteAll | services/queue_manager.py:365-367 | the deleting loop removes exactly the chosen entries |
| CacheManager.InsertOption | services/cache_manager.py:39-46 | inserting an option into a sorted list keeps all options and adds exactly one |
| CacheManager.SortOptionsSorted | services/cache_manager.py:39-46 | options with distinct names are sorted strictly by name |
| CacheManager.CacheKeyIgnoresOrder | services/cache_manager.py:39-46 | two option dicts with the same entries in any insertion order give the same key, and no options give the key of an empty dict |
| CacheManager.EffectiveTtl | services/cache_manager.py:98 | a missing or zero ttl becomes the default 3600 s; any other ttl is kept |
| CacheManager.NewItemFresh | services/cache_manager.py:159-167 | a new entry is valid at a later time exactly while less than its ttl has passed (strictly) |
| CacheManager.PutWellFormed | services/cache_manager.py:169-180 | storing in the memory tier keeps its key list and map in step, growing by one only for a new key |
| CacheManager.DeleteWellFormed | services/cache_manager.py:208-210 | deleting from the memory tier keeps it well formed, shrinking by one only for a present key |
| CacheManager.Oldest | services/cache_manager.py:174-177 | the evicted key has the smallest creation time, and it is the first such key in dict order |
| CacheManager.AdmitBounded | services/cache_manager.py:169-180 | the memory tier never holds more than 100 entries |
| CacheManager.AdmitProperties | services/cache_manager.py:169-180 | after an insert the new entry is present and the others are unchanged; an entry is lost only when the tier was full and it was the oldest |
| CacheManager.ExpiredKeys | services/cache_manager.py:203-206 | exactly the invalid memory entries are collected |
| CacheManager.SetThenGet | services/cache_manager.py:56-123 | `set` followed by `get` with the same url and options at the same time returns the data stored |
| CacheManager.CollectExpired | services/cache_manager.py:203-206 | the collecting loop returns the invalid memory keys |
| CacheManager.DeleteKeys | services/cache_manager.py:208-210 | the deleting loop removes exactly the collected keys |
| CacheManager.DropExpired | services/cache_manager.py:203-210 | the memory tier keeps exactly its valid entries, and the count reports how many went |
| CacheManager.PurgeDisk | services/cache_manager.py:213-224 | exactly the readable descriptors that are no longer valid are deleted, with their data files, and counted; unreadable ones are kept |
| CacheManager.HitRate | services/cache_manager.py:257-258 | the hit rate is between 0 and 100 percent, 0 with no requests and 100 with no misses |
| CacheManager.FreshPartProperties | services/cache_manager.py:203-210 | what `clear_expired` leaves in memory is well formed, no larger, and holds exactly the valid entries |
| CacheManager.Cache.constructor | services/cache_manager.py:22-37 | an empty cache with zero counters |
| CacheManager.Cache.Get | services/cache_manager.py:56-93 | the result is the memory hit, else the valid disk entry, else nothing; exactly one of hits and misses grows; an expired memory entry is dropped, and an expired disk entry is deleted with its file |
| CacheManager.Cache.ProbeMemory | services/cache_manager.py:61-69 | a valid memory entry is returned; an invalid one is deleted |
| CacheManager.Cache.ProbeDisk | services/cache_manager.py:72-89 | a valid disk entry is returned and promoted into the memory tier; a stale one is deleted with its data file |
| CacheManager.Cache.Set | services/cache_manager.py:95-123 | the entry goes into the memory tier (with eviction); a complete write stores the descriptor, counts it and returns true; a write that fails after the truncating open leaves an unreadable descriptor in place of any old one; a failed open leaves the disk tier as it was |
| CacheManager.Cache.CacheFile | services/cache_manager.py:125-148 | true exactly when the file exists, is at most 10 MB and the copy completes; once the destination was opened the data file exists, even when the copy then fails |
| CacheManager.Cache.GetCachedFile | services/cache_manager.py:150-157 | a data file is reported exactly when one exists for the key |
| CacheManager.Cache.ClearExpired | services/cache_manager.py:197-230 | memory keeps exactly its valid entries, the disk tier loses exactly its readable, no longer valid descriptors and their files, and the count is the sum of both |
| CacheManager.Cache.ClearAll | services/cache_manager.py:232-253 | both tiers are emptied and hits, misses and size are reset to 0 |
| CacheManager.Cache.GetStats | services/cache_manager.py:255-267 | the counters, the hit rate and the sizes of both tiers |
| Downloader.Basename | services/downloader.py:156 | the basename is a suffix of the path with no '/', and a path with no '/' is its own basename |
| Downloader.PageNameShape | services/downloader.py:89-92 | a page file name always ends in ".html", and the part before is a sanitized name |
| Downloader.PageNameRoot | services/downloader.py:89-92 | the path "/" gives the file "_.html" |
| Downloader.PageNameEmpty | services/downloader.py:90-92 | an empty path gives "index.html" |
| Downloader.ResourceName | services/downloader.py:156-158 | a resource file name is never empty (basename, else "resource_" and the hash) |
| Downloader.GrowsTransitive | services/downloader.py:100-102 | the downloader's state only grows, across any number of steps |
| Downloader.FetchResourceProperties | services/downloader.py:136-172 | a visited URL is skipped with nothing changed; otherwise it is visited once, and exactly a status-200 answer adds one file of its byte count under its kind's subdirectory |
| Downloader.FetchAllGrows | services/downloader.py:119-134 | fetching a tag's resources never loses a visit, a file or a byte |
| Downloader.PageResourcesGrows | services/downloader.py:114-134 | fetching a page's stylesheets, scripts and images never decreases the counters, and keeps files at most visits |
| Downloader.FetchPageProperties | services/downloader.py:73-113 | a visited page returns None with nothing changed; a page that fails to load is only marked visited; a loaded page writes its ".html" file first, counts it, then fetches its resources |
| Downloader.FetchPageOnce | services/downloader.py:76-77 | downloading the same page a second time returns None and changes nothing |
| Downloader.Dedup | services/downloader.py:188 | the links have no duplicates and are the same set as before |
| Downloader.FollowableOf | services/downloader.py:180-185 | exactly the hrefs on the page's origin and without '#' are kept |
| Downloader.ExtractLinks | services/downloader.py:173-192 | exactly the followable anchors of the page, without duplicates, and none when the page fails |
| Downloader.VisitLinksGrows | services/downloader.py:63-65 | following links never decreases the counters |
| Downloader.CeilingStops | services/downloader.py:63-65 | once the size ceiling is reached no further page is attempted |
| Downloader.VisitLinksFetchesFollowed | services/downloader.py:63-65 | the loop is `download_page` on exactly the links reached while the total size is below the ceiling, in order |
| Downloader.FollowedAmongLinks | services/downloader.py:63-65 | the links the loop downloads are at most as many as the links it is given, and each is one of them |
| Downloader.WebsiteFetchesAtMostTenLinks | services/downloader.py:56-65 | a crawl is `download_page` on the main URL and then on at most ten more pages, each among the first ten links extracted from the main page |
| Downloader.WebsiteIsFetchPages | services/downloader.py:56-65 | a crawl is `download_page` on the main URL and then on the followed links, with nothing else in between |
| Downloader.WebsitePagesBound | services/downloader.py:63-64 | the main URL is attempted first and at most ten pages follow it, each among the first ten extracted links |
| Downloader.WebsiteProperties | services/downloader.py:44-67 | the main page is visited, the counters only grow, and when the main page yields None no link is followed (the 10-link cap is `WebsiteFetchesAtMostTenLinks`) |
| Downloader.WebsiteDownloader.constructor | services/downloader.py:17-24 | nothing visited, no file written, counters zero |
| Downloader.WebsiteDownloader.MarkVisited | services/downloader.py:79 | the URL joins `downloaded_files` |
| Downloader.WebsiteDownloader.CountFile | services/downloader.py:100-102 | one more file of the given byte count |
| Downloader.WebsiteDownloader.DownloadResource | services/downloader.py:136-172 | the state becomes the one `FetchResource` describes |
| Downloader.WebsiteDownloader.DownloadEach | services/downloader.py:119-134 | the loop over a tag's references performs `FetchAll` |
| Downloader.WebsiteDownloader.DownloadResources | services/downloader.py:114-135 | stylesheets, then scripts, then images |
| Downloader.WebsiteDownloader.DownloadPage | services/downloader.py:73-113 | the state and the returned path are those `FetchPage` describes |
| Downloader.WebsiteDownloader.VisitAll | services/downloader.py:63-65 | the loop over at most ten links performs `VisitLinks` |
| Downloader.WebsiteDownloader.DownloadWebsite | services/downloader.py:44-72 | the site directory, and the file and byte totals after the crawl `Website` describes |
| Helpers.SameDomainIsEquivalence | utils/helpers.py:41-48 | `is_same_domain` is netloc equality, so reflexive, symmetric and transitive |
| Helpers.ParseFailureIsRejected | utils/helpers.py:10-48 | an unparseable URL is invalid and shares no domain; a valid URL shares its domain only with one of the same non-empty host |
| Helpers.ReplaceUnsafe | utils/helpers.py:21 | each of `< > : " / \ \| ? *` becomes '_' and every other character is kept |
| Helpers.SplitExt | utils/helpers.py:26 | stem and extension reassemble the name; the extension is empty or a dot followed by neither dot nor slash |
| Helpers.SanitizeFilename | utils/helpers.py:18-28 | the result contains no unsafe character |
| Helpers.SanitizeFilenameLength | utils/helpers.py:23-27 | a cleaned name of at most 100 characters is returned as is; a longer one keeps its extension and the first (at most 95) characters of its stem |
| Helpers.SanitizeFilenameKeepsCleanNames | utils/helpers.py:18-28 | a short name with no unsafe character and no border space is unchanged |
| Helpers.IsSupportedFileIgnoresCase | utils/helpers.py:50-63 | support depends only on the lower-cased extension |
| Helpers.ExtensionHasNoSlash | utils/helpers.py:50-53 | an extension never contains '/' |
| Helpers.HoursMinutesSeconds | utils/helpers.py:76-78 | hours, minutes and seconds recompose the total, with minutes and seconds below 60 |
| Helpers.RenderUnitsReadsBack | utils/helpers.py:80-85 | the printed units read back as the duration they denote, leading zero units omitted |
| Helpers.FormatTimedeltaReadsBack | utils/helpers.py:74-85 | a non-negative duration's text reads back as exactly its seconds |
| Helpers.FormatTimedeltaInjective | utils/helpers.py:74-85 | two non-negative durations with the same text are equal |
| Common.SortByStable | services/queue_manager.py:222 | the sort is stable, as Python's `sort` and `sorted` are, also with `reverse=True`: elements with equal keys keep their input order |
| Common.Recent | bot/handlers/base_handler.py:97 | the window keeps exactly the timestamps less than the span old, and no more of them |
| Common.PruneAllProperties | bot/handlers/base_handler.py:72-79 | every kept list is non-empty, no longer than before and recent; a user is dropped only when none of its timestamps is recent; pruning twice is pruning once |
| BaseHandler.RecentActivities | bot/handlers/base_handler.py:138 | exactly the activities less than 600 s old are kept |
| BaseHandler.Burst | bot/handlers/base_handler.py:148 | exactly the download requests of the last 60 s |
| BaseHandler.Observe | bot/handlers/base_handler.py:138-141 | the current activity is recorded last, nothing older than 600 s remains, and every recent activity is kept |
| BaseHandler.BurstIgnoresPruning | bot/handlers/base_handler.py:138-148 | pruning to 600 s does not change the 60 s download count |
| BaseHandler.FloodIsSuspicious | bot/handlers/base_handler.py:144-145 | a user who already has 20 recent activities is suspicious on the next one |
| BaseHandler.RepeatedDownloadsAreSuspicious | bot/handlers/base_handler.py:148-150 | a sixth download request within 60 s is suspicious |
| BaseHandler.QuietUserIsNotSuspicious | bot/handlers/base_handler.py:132-152 | a user with no recent activity is not suspicious |
| BaseHandler.ValidateUrlSecurity | bot/handlers/base_handler.py:154-178 | accepted exactly when the scheme is http or https, no blocked substring is in the lower-cased netloc and no unsafe extension ends the lower-cased URL; the reason names the first failing check, in that order |
| BaseHandler.LookalikeHostIsBlocked | bot/handlers/base_handler.py:165-168 | a public host containing "10." is refused as a blocked domain |
| BaseHandler.UpperCaseExecutableIsRefused | bot/handlers/base_handler.py:171-173 | a URL ending in ".EXE" is refused as an unsafe file type |
| BaseHandler.SchemeIsCheckedFirst | bot/handlers/base_handler.py:161-162 | a non-http scheme is reported before any other problem |
| BaseHandler.Moderation.constructor | bot/handlers/base_handler.py:26-29 | empty containers and the configured limit |
| BaseHandler.Moderation.CheckRateLimit | bot/handlers/base_handler.py:91-105 | the window is pruned to the last hour; the request is allowed exactly when fewer than the limit remain, and only then recorded, so the window never exceeds the limit |
| BaseHandler.Moderation.IsUserBanned | bot/handlers/base_handler.py:107-109 | the user is in the ban set; BanUser's ensures make it true and UnbanUser's make it false |
| BaseHandler.Moderation.BanUser | bot/handlers/base_handler.py:111-114 | the user joins the ban set, which is otherwise unchanged |
| BaseHandler.Moderation.UnbanUser | bot/handlers/base_handler.py:116-119 | the user leaves the ban set, which is otherwise unchanged |
| BaseHandler.Moderation.AddWarning | bot/handlers/base_handler.py:121-130 | the count grows by exactly one; the user is banned, and true returned, exactly when the new count is at least 3 |
| BaseHandler.Moderation.DetectSuspiciousActivity | bot/handlers/base_handler.py:132-152 | the activity list becomes `Observe` of the old one, and the result is more than 20 activities or more than 5 download requests in 60 s |
| BaseHandler.Moderation.PruneRateLimits | bot/handlers/base_handler.py:72-79 | every window is cut to the last hour and users left with none are deleted |
| BaseHandler.BaseHandler.Root | bot/handlers/base_handler.py:21-30 | a root handler with fresh, empty moderation state |
| BaseHandler.BaseHandler.Child | bot/handlers/base_handler.py:31-39 | a child handler shares its parent's moderation state |
| BaseHandler.BaseHandler.PeriodicCleanup | bot/handlers/base_handler.py:66-90 | the rate-limit prune, then the cleanup time is set; other state unchanged |
| BotHandlers.Begin | bot/handlers.py:333-338 | a user with an active download is refused; otherwise the user becomes active; other users unaffected |
| BotHandlers.Finish | bot/handlers.py:412-413 | the user's entry is removed, whatever the outcome, once the `try` at line 341 was entered |
| BotHandlers.CancelDownload | bot/handlers.py:419-421 | an active user's entry is removed; otherwise nothing changes |
| BotHandlers.GateAdmitsOneDownload | bot/handlers.py:328-413 | a second download is refused while the first runs and admitted after it finishes; other users are not affected |
| BotHandlers.CancelReopensGate | bot/handlers.py:416-421 | after `cancel` a second download of the same user starts even though the first was not stopped |
| BotHandlers.StrandedUntilCancel | bot/handlers.py:333-341 | the progress reply at line 339 comes after the user is marked active and before the `try`, so when it raises no `finally` runs; until that user's own end or `/cancel` the user stays active whatever other users do, and each further download of theirs is refused |
| BotHandlers.BanReply | bot/handlers.py:494-519 | only the administrator bans, a numeric argument is required, and the administrator can never be banned |
| BotHandlers.UnbanReply | bot/handlers.py:541-566 | only the administrator unbans, and only a banned user |
| BotHandlers.BotHandlers.constructor | bot/handlers.py:29-36 | empty containers and the cleanup time set to now |
| BotHandlers.BotHandlers.StartDownload | bot/handlers.py:333-338 | the gate as `Begin` states it |
| BotHandlers.BotHandlers.FinishDownload | bot/handlers.py:412-413 | the `finally` clause as `Finish` states it |
| BotHandlers.BotHandlers.Cancel | bot/handlers.py:416-424 | the gate as `CancelDownload` states it |
| BotHandlers.BotHandlers.BanCommand | bot/handlers.py:494-519 | the target is banned only on success, the administrator never becomes banned, and nothing else changes |
| BotHandlers.BotHandlers.UnbanCommand | bot/handlers.py:541-566 | on success the target is unbanned and its warnings dropped; otherwise nothing changes |
| BotHandlers.BotHandlers.CleanupCommand | bot/handlers.py:588-616 | for the administrator every rate-limit record is dropped, the number of users is reported and the cleanup time set; for others nothing changes |
| BotHandlers.BotHandlers.PeriodicCleanup | bot/handlers.py:61-80 | the rate-limit prune, then the cleanup time is set |
| SecurityManager.MaxRiskAsWritten | services/security_manager.py:100-107 | `max` of two risk names picks one of them |
| SecurityManager.LowOutranksHighAsWritten | services/security_manager.py:100-107 | as written, `max('low', 'high')` is 'low' and `max('high', 'medium')` is 'medium' |
| SecurityManager.MaxRisk | services/security_manager.py:100-107 | the corrected maximum picks the higher-ranked risk |
| SecurityManager.BlockedIn | services/security_manager.py:139-143 | a threat for exactly each blocked entry contained in the lower-cased domain |
| SecurityManager.TldsOf | services/security_manager.py:156-160 | a threat for exactly each suspicious TLD the domain ends with |
| SecurityManager.PatternsIn | services/security_manager.py:168-172 | a threat for exactly each pattern that matches |
| SecurityManager.CheckDomainSecurity | services/security_manager.py:134-162 | unsafe exactly when a blocked entry is in the domain or it is a local address; a suspicious TLD sets medium but leaves it safe; otherwise high when unsafe and low when safe |
| SecurityManager.CheckSuspiciousPatterns | services/security_manager.py:164-174 | safe, with no threats and low risk, exactly when no pattern matches; high otherwise |
| SecurityManager.SchemeCheck | services/security_manager.py:89-93 | only http and https pass |
| SecurityManager.HighFailureRatedLowAsWritten | services/security_manager.py:89-107 | as written, a URL failing only the domain or only the pattern check with risk high is rated low |
| SecurityManager.BlockedDomainRatedLowAsWritten | services/security_manager.py:89-107 | as written, https://localhost is unsafe with risk 'low' |
| SecurityManager.LocalhostIsBlocked | services/security_manager.py:59-63 | "localhost" is a blocked domain without a suspicious TLD |
| SecurityManager.Combine | services/security_manager.py:77-107 | the corrected combination: safe exactly when every check passes, threats accumulate in check order, low when safe, never below a failing check's risk and equal to one of them |
| SecurityManager.BlockedDomainRatedHigh | services/security_manager.py:89-107 | corrected, https://localhost is unsafe with risk high |
| SecurityManager.EveryUrlRefusedAsWritten | services/security_manager.py:110-130 | as written, every URL is unsafe with risk 'medium' and a check-error threat |
| SecurityManager.UrlSecurity | services/security_manager.py:77-132 | corrected: a URL that fails to parse is unsafe and medium; otherwise safe exactly when the scheme, domain and pattern checks all pass |
| SecurityManager.GoogleIsClean | services/security_manager.py:56-63 | www.google.com is neither blocked nor on a suspicious TLD |
| SecurityManager.CleanUrlIsSafe | tests/test_downloader.py:201-209 | https://www.google.com is unsafe as written and safe, with no threats and risk low, once corrected |
| SecurityManager.CheckUserInput | services/security_manager.py:245-275 | safe, with no threats, exactly when no pattern matches and the text has at most 10000 characters |
| SecurityManager.NoColonInt | services/security_manager.py:198 | a printed user id contains no ':' |
| SecurityManager.RateKeyInjective | services/security_manager.py:198 | different (user, action) pairs never share a rate-limit key |
| SecurityManager.Decide | services/security_manager.py:216-243 | allowed exactly below the limit, with `current = count + 1` and `remaining = limit - count - 1`; refused with the count and a reset one hour later |
| SecurityManager.Logged | services/security_manager.py:331-335 | the threat is appended and the history never exceeds 1000; when it would, the last 500 are kept |
| SecurityManager.RecentThreats | services/security_manager.py:427-432 | exactly the threats of the last seven days are kept |
| SecurityManager.Bump | services/security_manager.py:356-360 | the user's failed count grows by one and its last attempt is now; other users unchanged |
| SecurityManager.LockoutTiming | services/security_manager.py:353-383 | after a high threat the user is locked out exactly when the count reached 5 and less than 3600 s have passed |
| SecurityManager.FreshAttemptsKeepLockouts | services/security_manager.py:421-425 | the cleanup never lifts an active lockout, keeps records unchanged, and drops only those older than 7200 s |
| SecurityManager.SecurityManager.constructor | services/security_manager.py:36-50 | empty blocks, history, rate limits and attempts |
| SecurityManager.SecurityManager.HandleCriticalThreat | services/security_manager.py:346-351 | the user's id string is blocked permanently |
| SecurityManager.SecurityManager.HandleHighThreat | services/security_manager.py:353-364 | the failed-attempt record is bumped; nothing else changes |
| SecurityManager.SecurityManager.LogSecurityThreat | services/security_manager.py:320-344 | the bounded history gains the threat; critical blocks the user, high bumps its attempts |
| SecurityManager.SecurityManager.CheckRateLimit | services/security_manager.py:195-243 | the "user:action" window is pruned to the last hour; the decision follows the action's cap (100 general, 10 download, 1000 admin, 50 otherwise); only an allowed call is recorded, and a refusal logs a medium threat |
| SecurityManager.SecurityManager.SetWindow | services/security_manager.py:204-236 | replacing one key's window keeps every window within its action's cap |
| SecurityManager.SecurityManager.IsUserBlocked | services/security_manager.py:366-383 | blocked exactly when the id is blocked permanently or locked out; an expired lockout deletes the record |
| SecurityManager.SecurityManager.ValidateUrlSecurity | services/security_manager.py:77-132 | the corrected verdict, logged with its risk when the URL parsed, is unsafe and the user is known; a URL that fails to parse is never logged, as the handler at lines 126-130 skips the logging |
| SecurityManager.SecurityManager.ValidateUserInput | services/security_manager.py:245-275 | the input verdict, logged as a medium threat when unsafe and the user is known |
| SecurityManager.SecurityManager.PruneRateLimits | services/security_manager.py:412-419 | every window is cut to the last hour and empty keys are deleted |
| SecurityManager.SecurityManager.DropStaleAttempts | services/security_manager.py:421-425 | failed-attempt records older than twice the lockout are deleted |
| SecurityManager.SecurityManager.CleanupOldData | services/security_manager.py:408-432 | all three prunes: rate limits, stale attempts and week-old threats |
| Monitoring.Inc | services/monitoring.py:416-417 | `d[k] += 1` on a `defaultdict(int)`: exactly that counter grows by one and its key joins the map |
| Monitoring.DetailKey | services/monitoring.py:441 | the detail key differs from the error type it extends |
| Monitoring.PercentileIsAValue | services/monitoring.py:456-463 | 0 for no values, otherwise one of the values |
| Monitoring.PercentileMonotone | services/monitoring.py:456-463 | a higher percentile is never smaller |
| Monitoring.PercentileExtremes | services/monitoring.py:456-463 | percentile 0 is the minimum and percentile 100 or more is the maximum |
| Monitoring.CacheHitRate | services/monitoring.py:465-470 | 0 with no requests or no hits, 100 with no misses, and always between 0 and 100 |
| Monitoring.ErrorRate | services/monitoring.py:472-476 | 0 with no downloads or no failures, never negative, at most 1 when failures do not exceed downloads |
| Monitoring.Items | services/monitoring.py:480-481 | the recorded errors, in insertion order, with their counts |
| Monitoring.TopErrorsAreRecorded | services/monitoring.py:478-489 | at most `limit` entries, each a recorded error with its count |
| Monitoring.TopErrorsDescending | services/monitoring.py:480-488 | the entries are in non-increasing count order |
| Monitoring.TopErrorsAreMostFrequent | services/monitoring.py:478-489 | an error left out is never more frequent than one listed |
| Monitoring.CapAll | services/monitoring.py:531-533 | every series is cut to at most 1000 values, and no series is added or removed |
| Monitoring.MetricsCollector.constructor | services/monitoring.py:52-58 | empty histories and counters |
| Monitoring.MetricsCollector.RecordUserActivity | services/monitoring.py:407-412 | now is appended and only the last 100 are kept |
| Monitoring.MetricsCollector.RecordDownload | services/monitoring.py:414-423 | 'total' and the status counter each grow by one, and a positive duration is appended to the download-time series |
| Monitoring.MetricsCollector.RecordCacheHit | services/monitoring.py:425-428 | the hit counter grows by one |
| Monitoring.MetricsCollector.RecordCacheMiss | services/monitoring.py:430-433 | the miss counter grows by one |
| Monitoring.MetricsCollector.RecordError | services/monitoring.py:435-442 | the type counter and the "type:first 50 characters" counter each grow by one, and nothing else |
| Monitoring.MetricsCollector.RecordPerformanceMetric | services/monitoring.py:444-449 | the value is appended and only the last 1000 are kept |
| Monitoring.MetricsCollector.PruneUserActivity | services/monitoring.py:517-528 | activities older than 30 days are dropped and users left with none deleted |
| Monitoring.MetricsCollector.CapSeries | services/monitoring.py:532-533 | one series is cut to its last 1000 values |
| Monitoring.MetricsCollector.CapPerformanceMetrics | services/monitoring.py:530-533 | every series is cut to its last 1000 values |
| Monitoring.MetricsCollector.CleanupOldData | services/monitoring.py:514-536 | both prunes; afterwards no series exceeds 1000 values |
| Monitoring.MetricsCollector.ErrorRateIsFraction | services/monitoring.py:414-417 | every recorded download counts in 'total', so failures never exceed it and the error rate of lines 472-476 lies between 0 and 1 |

## Left out

- PyStr.Lower: only 'A'..'Z' are folded; every other cased letter keeps its
  case, whereas Python's `str.lower()` folds all of them (and 'İ' into two
  characters). The only non-ASCII letters that Python lowers into ASCII are
  U+0130 (to "i" plus a combining dot) and U+212A (to "k"). No blocked
  domain, unsafe extension or supported extension contains a 'k' or ends in an
  'i', so no accept or refuse verdict differs. What differs is the string
  `Helpers.GetFileExtension` returns: for "a.ÉXE" it is ".Éxe", not ".éxe".
- Asyncio is modelled as sequential steps: `queue_lock`, `create_task`,
  `sleep`, `_process_queue`, and the `start`/`stop` of the queue and the
  monitor. Each outcome (success, error, cancellation) is an input event.
- The end of a retry sleep (`EndBackoff`) is one atomic step. The source
  could interleave it with other coroutines at the lock.
- The heap layout of `pending_queue` is not modelled. Pending tasks are a
  sequence, and dispatch takes the first minimal one under `__lt__`.
  - When two tasks have equal priority and creation time, `heapq` may choose
    the other one.
  - `get_user_tasks` lists pending tasks in that sequence order, not the
    heap's array order.
- The callback and context of a `QueueTask` are not modelled; the callback's
  verdict is the outcome. `uuid4` freshness is the precondition that the new
  id is not stored yet.
- Times are whole seconds.
  - Float progress and the `get_queue_stats` values are left out.
  - Cache and monitor rates are `real`; rounding for display is left out.
  - `human_readable_size` rounds floats and is left out.
- SHA-256 and `json.dumps` are the function `digest`. No collision-freedom
  is claimed.
- `get_cache_size` reads the file system and is left out. So are the
  descriptor and data file contents (a descriptor is what its file parses
  to).
- Downloader:
  - Playwright, aiohttp, BeautifulSoup, `urlparse`, `urljoin`, Python's
    `hash` and file sizes are the oracle `Web`.
  - `os.makedirs` and `page.close` are left out.
  - `initialize` and `close` only open and close foreign sessions, and are
    left out.
  - `max_depth` is unused by the source.
- Helpers.IsLargeFile: `is_large_file` is one strict comparison against a
  threshold of 10 MiB by default, with no lemma of its own.
- Downloader.Dedup: `list(set(links))` has no defined order in Python. The
  model keeps each link's first occurrence, so a crawl follows the same set
  of links but possibly in another order.
- Handlers:
  - Telegram messages, keyboards, the database and `FileManager` sweeps are
    left out.
  - The flow of `handle_message` and the admin panel and statistics text are
    left out.
  - `add_warning`'s reason is only logged, and is left out.
- Security:
  - `re.search` is the set of matching patterns.
  - `ipaddress.ip_address` is an `Address` verdict.
  - `urlparse` is a parsed value, or `None` when it raises.
  - A `user_id` of `None` is 0.
- SecurityManager.IsBlockedDomain: the source iterates a `set`, whose order
  is unspecified. The model lists the blocked entries in source order, so
  only the order of threats in a blocked-domain check can differ.
- Left out of the security manager, each for one reason:
  - `_sanitize_input` and `sanitized_input`: they are regular-expression
    rewriting.
  - `generate_secure_token` and `verify_token`: they are JWT crypto.
  - `_check_external_blacklists`: it is never reached (see Findings).
  - `get_security_stats`: it is reporting only.
- A `SecurityThreat`'s description, IP address and user agent are free text
  and are left out.
- Monitoring.Percentile: the percentile is a natural number. A negative
  percentile, which Python would index from the end, is not modelled.
- Also left out of monitoring:
  - `_calculate_avg_metric` and `_get_user_activity_distribution`, which are
    float and reporting code;
  - Prometheus, FastAPI and psutil sampling;
  - the system and bot metrics history.
- Monitoring.MetricsCollector.CleanupOldData: the `except` of
  `_cleanup_old_data` is not modelled. Nothing in the modelled body raises.

## Findings

| source | as written | input that shows it | evidently intended | confidence | as-written member | corrected member |
|---|---|---|---|---|---|---|
| services/security_manager.py:110 | reads `config.Config.ENABLE_EXTERNAL_SECURITY_CHECK`, which config.py does not define; the `AttributeError` is caught at lines 126-130, so every URL is reported unsafe with risk 'medium' and is never logged as a threat | `validate_url_security("https://www.google.com")`, which tests/test_downloader.py:201-209 expect to be safe | the external check is skipped when not configured, and the result is the combination of the scheme, domain and pattern checks | not executed | SecurityManager.UrlSecurityAsWritten (SecurityManager.EveryUrlRefusedAsWritten, SecurityManager.CleanUrlIsSafe) | SecurityManager.UrlSecurity |
| services/security_manager.py:100-107 | combines `risk_level` with `max` over strings, which compares them alphabetically, so 'low' outranks 'high' and 'medium' outranks 'high'; masked today by the line-110 finding | `https://localhost`: the blocked-domain check reports 'high', but the combined result is 'low' | the higher risk by severity low < medium < high < critical | not executed | SecurityManager.CombineAsWritten (SecurityManager.BlockedDomainRatedLowAsWritten, SecurityManager.HighFailureRatedLowAsWritten, SecurityManager.LowOutranksHighAsWritten) | SecurityManager.Combine (SecurityManager.MaxRisk, SecurityManager.BlockedDomainRatedHigh) |
