# A verified model of the crawl service

A Dafny model of the stateful parts of a FastAPI crawling backend and its queue worker, with proofs of
what they guarantee. Check it with `dafny verify dfyconfig.toml`.

## What is modelled

**Crawl jobs.** A worker runs a job in small steps, one for each database access or engine call, while
the API creates, cancels, retries, scrapes and deletes jobs over the same tables.

- `CrawlModel` is the state machine of one job. A `Cell` holds the committed rows and, if a run is
  alive, where it stands and its ORM session: the row as last loaded or committed (`base`), the row with
  the run's assignments (`job`), and the pending inserts. A commit writes a column exactly if `job` and
  `base` differ in it. This is the ORM's net-change rule: setting a column to the value it was loaded
  with writes nothing, so a start write on a row loaded as RUNNING does not overwrite a cancel, while
  one on a row loaded as QUEUED does. The row stays loaded after a commit (`expire_on_commit=False`),
  and `is_cancelled` reads the committed column.
- `CrawlInvariants`, `CrawlRows`, `CrawlTimes`, `CrawlCancellation` and `ShallowRefinement` prove what
  every interleaving with API calls, crashes and redeliveries keeps, which rows and times it leaves, what
  a cancel guarantees, and that the two loops of link extraction cannot be told apart once they are over.
- `CrawlWorker` is the worker as a program: methods with loops and a mutable session. It is proved to
  perform runs of the state machine, so all results about runs hold of it.
- `CrawlSystem` puts all jobs side by side under the API calls; `CrawlService` is the API as a class
  proved equal to it call by call; `CrawlHistory` is the pair of histograms of `get_crawl`.

**Sessions and tokens.** `AuthModel` is login, refresh with rotation, logout, revocation and password
change over one session table, with clocks in microseconds and expiry rounded as in the code.
`AuthProofs` follows lineages (a login and the rotations that descend from it) over all runs,
`AuthAnswers` says what each request answers and leaves in the tables, and `AuthService` is the program.

**The agent.** `AgentCache` is the bounded cache, proved against least-recently-used eviction stated on
the history of requests alone. `AgentSettings` and `ChatModels` are what may be saved, what a request
resolves to, and what can be built of it. `ToolEvents` and `ChatStream` are the queue between the run,
its tool calls and the generator of `/chat/stream`, under any interleaving. `Json`, `JsonReader`, `Sse`
and `ChatClient` follow the events to a client that reads the bytes by section 9.2.6 of the WHATWG HTML
Standard and the data by RFC 8259.

**Data.** `DataApi` is listing by pages and export as NDJSON, with the same filters.

### Results that differ from what one might expect

- CANCELLED is not final. `StatusMovesAlongEdges` says exactly which writes leave it: a start write that
  loaded QUEUED before the cancel, and a final write decided before it. `CancelCanBeLost` and
  `FinalWriteOverwritesCancel` are such runs; `CancelSurvivesExactly` says when a cancel survives.
- Escaping a string and reading it back is the identity exactly if the string has no high surrogate
  right before a low one (`EscapingIsFaithful`, with `SplitPairIsLost` as the counterexample), and a
  JSON text comes back exactly if it moreover holds no NaN or infinity (`ParseInvertsDumps`): the
  standard serializer prints those by names that are no JSON.
- A session can be listed for up to a second after its refresh token has expired, because the claim is
  in whole seconds and the row in milliseconds (`ListedButExpired`, with `ListedAfterExpiry` as the
  example); the converse never happens.
- The two loops of link extraction differ under a crash while rows are pending, and under a deletion of
  a row that is still pending in one of them, and under nothing else (`CrashIsMatched`,
  `DeletionIsMatched`).
- Splitting undoes joining exactly if there is at least one line; the export's guard against an empty
  result is what provides one.

### How the environment is modelled

- Clock readings, uuids and the order of rows with equal timestamps are arbitrary; new ids are fresh.
- Each API handler is one atomic step, and a commit either succeeds or crashes the worker. The queue may
  deliver a job whenever no run holds it, which covers redelivery after a crash and spurious delivery.
- An engine is an arbitrary finite stream of items that may raise at any point and when it is left. An
  item on which URL decoding or summarising raises is `Poison`. An engine whose `run` returns a whole
  list is the stream of that list.
- Tokens cannot be forged. The users table has a unique index on the email. A Redis entry lives until its time to live is over, and not at that instant.
- The database's ILIKE is a parameter of the selection.
- History that is no column of any table (`removed`, `lineage`, `ancestry`, `redeemed`, `passed`,
  `stop`, `log`, `history`, `ops`, `trace`, `progress`) only serves to state properties.

## Model

| member | source | states |
|---|---|---|
| CrawlInvariants.StepKeepsInv | src/worker/tasks.py:66-260 | Every worker step, API call on the job, delivery or crash keeps the invariant: committed counters equal committed rows (plus deleted ones), the session is the database plus its pending rows, and database, loaded row and session stand in one of the possible status combinations; a seen cancel is still committed |
| CrawlInvariants.CountersMatchRows | src/worker/tasks.py:126-260 | From the insert on, over every run, `urls_discovered` is the discovered rows plus those deleted, `urls_scraped` is the result rows, and it equals `urls_discovered` in crawler and scraper mode and 0 in the others |
| CrawlInvariants.StatusMovesAlongEdges | src/worker/tasks.py:66-123 | Committed status changes stay in a fixed edge set; a step leaves CANCELLED if and only if it is a start write that loaded QUEUED or the commit of a final status other than CANCELLED |
| CrawlInvariants.StatusHistory | src/worker/tasks.py:66-123 | The same, with both directions, for every step of every run from the insert |
| CrawlInvariants.CancelCanBeLost | src/worker/tasks.py:68-74 | A concrete run: a cancel committed between loading a queued job and its start write is overwritten with RUNNING |
| CrawlInvariants.FinishedRunIsSettled | src/worker/tasks.py:77-123 | A run that ends other than by a crash leaves COMPLETED with `urls_discovered > 0`, FAILED with `error`, or CANCELLED, with start and finish times set |
| CrawlInvariants.TimesStaySet | src/worker/tasks.py:72-121 | A set `started_at` or `finished_at` is never unset by any event |
| CrawlInvariants.RunGrows | src/worker/tasks.py:126-260 | Over every run the result rows and both counters only grow |
| CrawlInvariants.StepLogs | src/worker/tasks.py:56-123 | Only the run writes to the log: one line each, with the text given there, at its start, when it saw a cancel, after scraping nothing, and at its end |
| CrawlInvariants.WarnsOfNothingExactly | src/worker/tasks.py:258-259 | The warning about an empty scrape comes exactly when a scraper's loop ran to its end, its engine was left without an exception, and the job has no result |
| CrawlTimes.EndedRunHasItsTimes | src/worker/tasks.py:72-121 | After a run that ended by itself `started_at` is the clock reading of its delivery, and `finished_at` that of its own final decision; only where that equals the finish time it had loaded, so that nothing is written, a cancel that came meanwhile keeps its own |
| CrawlTimes.UncrashedRunHasEnded | src/worker/tasks.py:77-123 | A run that goes away other than by a crash has ended by itself |
| CrawlRows.RunKeepsRows | src/worker/tasks.py:126-260 | Over every run, crashes included, the discovered rows are a subsequence of those there were and those inserted by recording pages, in that order |
| CrawlRows.UncrashedRunKeepsAll | src/worker/tasks.py:126-260 | Without a crash all inserted result rows stay, and all discovered rows but as many as were deleted |
| CrawlRows.InsertedArePages | src/worker/tasks.py:194-216 | The rows inserted over a run are one for each page recorded, with its URL, and where pages are scraped one result each, with its URL and content |
| CrawlRows.RecordingAddsRows | src/worker/tasks.py:198-216 | A page past its check adds exactly one row with its URL, a drawn id and the clock, and in crawler and scraper mode one result with its content, the job's format and its own id and time |
| CrawlRows.DeletionLeavesOthers | src/api/v1/crawler/router.py:271-282 | With unique ids, deleting a row leaves exactly the rows with another id, in their order |
| CrawlCancellation.CancelAllowsOneMorePage | src/worker/tasks.py:126-260 | A cancel committed after the start write lets the run record at most one further page, and none unless a page was already past its check, in every mode and interleaving until the next delivery |
| CrawlCancellation.LateCancelMissesOnePage | src/worker/tasks.py:130-144 | The bound is met: a page past its check is recorded after the cancel |
| CrawlCancellation.ObservedCancelSticks | src/worker/tasks.py:61-112 | Once `is_cancelled` returned true, the job is CANCELLED in every later state and nothing more is recorded, through crashes and redeliveries, barring an exception |
| CrawlCancellation.YieldAfterCancelEndsCancelled | src/worker/tasks.py:61-112 | If the engine yields again after a cancel, the run records nothing from that yield on and the job ends and stays CANCELLED with `finished_at` set, barring an exception |
| CrawlCancellation.CancelSurvivesExactly | src/worker/tasks.py:61-123 | A cancel committed between the start write and the final decision is the status an uncrashed run ends in if and only if the run checks once more after it and leaving the engine does not raise |
| CrawlCancellation.FinalWriteOverwritesCancel | src/worker/tasks.py:100-112 | A concrete run from the insert: a cancel committed after the last check is overwritten with COMPLETED |
| ShallowRefinement.CrashIsMatched | src/worker/tasks.py:149-184 | A crash does the same to both loops if and only if nothing is pending in the single-commit one |
| ShallowRefinement.DeletionIsMatched | src/api/v1/crawler/router.py:271-282 | A row deletion does the same to both loops if and only if it does not name a row still pending |
| ShallowRefinement.ShallowIsSimulated | src/worker/tasks.py:149-184 | Every run of the single-commit loop whose crashes and deletions are of those kinds is matched, event by event, by a run of the commit-per-item loop with the same rows once pending ones are counted |
| ShallowRefinement.ShallowRefinesStreaming | src/worker/tasks.py:151-184 | From two fresh jobs differing in the strategy alone: past the loop both stand at the same point (same return value) with the same rows, counters, status, error, times and logs |
| ShallowRefinement.MirrorKeepsCalls | src/worker/tasks.py:149-184 | The matching run has the same API calls and deliveries in the same order |
| CrawlWorker.OrmSession.Commit | src/db/pg.py:6 | A commit writes each column exactly if the session changed it, appends the pending rows, and keeps the row loaded |
| CrawlWorker.OrmSession.AddPage | src/worker/tasks.py:194-216 | Recording a page adds its rows, each with its own id and clock reading, and counts to the session as the state machine does |
| CrawlWorker.JobStore.CancelCrawl | src/api/v1/crawler/router.py:356-360 | A cancel during a run sets a queued or running row to CANCELLED with this call's finish time, all other columns as they were, and leaves any other row alone |
| CrawlWorker.JobStore.DeleteDiscoveredUrl | src/api/v1/crawler/router.py:271-282 | With unique ids, a row deletion during a run leaves exactly the rows with another id, in their order, and everything else as it was; it reports whether there was such a row, and without one changes nothing |
| CrawlWorker.IsCancelled | src/worker/tasks.py:61-63 | Returns whether the committed status is CANCELLED, and the run goes on accordingly |
| CrawlWorker.Iterate | src/worker/tasks.py:130-144 | One iteration of a mode loop takes one item and is a run of the state machine that ends at the next item with this page recorded, after the cancel, or at the exception that the item raised |
| CrawlWorker.Consume | src/worker/tasks.py:157-182 | A whole mode loop takes the engine's items in order, all of them if it runs to the end, and is left by a cancel, the end of the stream, or the exception of an item or of the engine; every item before the last one taken was a page and is recorded |
| CrawlWorker.RunSitemap | src/worker/tasks.py:126-146 | Performs a run that ends at the mode function's return value or exception, with the items taken and pages recorded as for the loop |
| CrawlWorker.RunLinkExtraction | src/worker/tasks.py:149-184 | The same, with the single commit in shallow mode and the engine left before returning |
| CrawlWorker.RunCrawler | src/worker/tasks.py:187-219 | The same for the crawler |
| CrawlWorker.RunScraper | src/worker/tasks.py:222-260 | The same for the scraper, run on the seed URLs or, without any, on the target alone, with the warning when nothing was scraped |
| CrawlWorker.RunMode | src/worker/tasks.py:87-98 | The dispatch on the mode ends as that mode function does; in crawler mode filters that cannot be built raise before any item is taken |
| CrawlWorker.Finish | src/worker/tasks.py:100-116 | After a mode function returned, the run ends CANCELLED exactly if it returned true, and FAILED only with no URL discovered and the message naming the target |
| CrawlWorker.HandleException | src/worker/tasks.py:118-123 | After an exception, the run ends FAILED with its message as error |
| CrawlWorker.Execute | src/worker/tasks.py:77-123 | From the settings on, the run ends settled for a reason: the status and error follow from what raised, whether a cancel was seen, and how many of the engine's items were taken |
| CrawlWorker.RejectSettings | src/worker/tasks.py:79-85 | Settings that cannot be built end the run FAILED with that error, no item taken |
| CrawlWorker.RunCrawlJob | src/worker/tasks.py:66-123 | With API calls landing at every await, the program performs a run of the state machine from delivery to the end; unless it found the job cancelled at once it leaves it settled: COMPLETED only if every item of the engine was taken in order, recorded, and nothing raised, CANCELLED only after an item was yielded, FAILED with the message of what raised or of an empty result. The discovered rows then carry the URLs of the recorded pages in order, up to deleted ones, the results those pages with their content, and `urls_discovered` their number. The engine ran on the target, or in scraper mode on the seed URLs if there are any. The start time is the delivery's, the finish time the final decision's unless that equals the one loaded |
| CrawlSystem.FirstOccurrencesAreOrdered | src/api/v1/crawler/router.py:311 | `dict.fromkeys` leaves the same URLs, without duplicates, in the order of their first occurrences |
| CrawlSystem.SysRunKeepsInv | src/api/v1/crawler/router.py:37-434 | Every run of API calls and worker events over all jobs keeps every job's invariant and every job's lineage |
| CrawlSystem.EveryJobIsConserved | src/worker/tasks.py:126-260 | In every reachable state of the whole system the counters of every existing job agree with its rows |
| CrawlSystem.EveryStatusFollowsEdges | src/api/v1/crawler/router.py:341-362 | Any call, on any job, moves each job's status along the fixed edges only |
| CrawlSystem.CallsStayWithTheirOwner | src/api/v1/crawler/router.py:37-434 | A user's call leaves the jobs of all other users unchanged |
| CrawlSystem.RetryContinuesLineage | src/api/v1/crawler/router.py:370-409 | A retry succeeds exactly on one's own failed or cancelled job; the new job is fresh, equal but for its creation time, and in the same lineage; a refusal changes nothing |
| CrawlSystem.ScrapeSeedsAllDiscovered | src/api/v1/crawler/router.py:290-337 | A scrape's seed list is the source's discovered URLs once each in first-seen order, for the same owner and target |
| CrawlSystem.RetriesScrapeTheSameList | src/api/v1/crawler/router.py:306-401 | Every job in any chain of retries of a scrape, at any later time, scrapes that same duplicate-free list, with `url_limit` its length and owner, target, mode, settings and filters unchanged |
| CrawlService.Service.CreateCrawl | src/api/v1/crawler/router.py:38-61 | Inserts a queued job with exactly the columns given and the limit of the settings, and touches no other |
| CrawlService.Service.CancelCrawl | src/api/v1/crawler/router.py:341-362 | 404 exactly if the job is not one's own; else it returns the job, cancelled at this time if it was queued or running and as it was otherwise; nothing else changes |
| CrawlService.Service.RetryCrawl | src/api/v1/crawler/router.py:370-409 | 404 exactly if not one's own, 409 exactly if queued, running or completed; else a fresh job with all columns of the source but the creation time; a refusal changes nothing |
| CrawlService.Service.ScrapeDiscoveredUrls | src/api/v1/crawler/router.py:290-337 | 404 exactly if not one's own, 400 exactly if nothing is discovered; else a fresh scraper job over the discovered URLs, for the source's owner and target, with the given settings, no filters, and their number as limit |
| CrawlService.Service.DeleteCrawl | src/api/v1/crawler/router.py:413-434 | 404 exactly if not one's own, 409 exactly if queued or running; else the job is gone and no other is touched |
| CrawlService.Service.DeleteDiscoveredUrl | src/api/v1/crawler/router.py:255-282 | 204 exactly if the job is one's own and has a row with this id; then, with unique ids, exactly the rows with another id are left in their order, and nothing else changes |
| CrawlHistory.Bucket | src/api/v1/crawler/router.py:113-116 | The dictionary holds exactly the seconds that occur, each with the number of times in it |
| CrawlHistory.Sorted | src/api/v1/crawler/router.py:119 | Sorting the keys gives them in strictly increasing order |
| CrawlHistory.CountInIs | src/api/v1/crawler/router.py:114-116 | The count of a second is the number of times in its thousand milliseconds |
| CrawlHistory.CountUpToIs | src/api/v1/crawler/router.py:126-133 | The running count of a second is the number of times before its end |
| CrawlHistory.ThroughputHistory | src/api/v1/crawler/router.py:110-120 | Points are strictly increasing multiples of 1000, one for each second that occurs, each with the number of times in that second |
| CrawlHistory.DiscoveryHistory | src/api/v1/crawler/router.py:122-133 | Points as before, each with the number of times before the end of its second; the last counts all rows |
| CrawlHistory.TotalIsLength | src/api/v1/crawler/router.py:117-120 | Throughput counts add up to the number of rows |
| CrawlHistory.GetCrawl | src/api/v1/crawler/router.py:95-142 | With any events between its three queries, the throughput adds up to the `urls_scraped` at the second query, no less than the value the first one read; the last discovery point plus the deleted rows is the `urls_discovered` at the third, no less than the first |
| AuthModel.LogoutTtl | src/api/users/logout/router.py:24 | The blocklist entry lives at least one second and at least until the token's `exp` |
| AuthProofs.HandleKeepsInv | src/api/users/refresh/router.py:28-62 | Every request keeps: tokens match their session rows, each session's lineage is a chain of redemptions from a login, one live session per lineage, redeemed means revoked |
| AuthProofs.LineagesAreSound | src/api/users/refresh/router.py:36-56 | Over every run: no refresh jti is redeemed twice, a lineage has at most one unrevoked session, and a session's user is its token's `sub` |
| AuthProofs.RevokedForGood | src/core/sessions.py:23-34 | Over every run a set `revoked_at` never changes again |
| AuthProofs.RefreshRotates | src/api/users/refresh/router.py:36-56 | A refresh succeeds exactly if its checks pass; then it redeems its token once, and the successor is live and continues the lineage for the same user; otherwise nothing changes |
| AuthProofs.SuccessorIsRedeemable | src/api/users/refresh/router.py:45-62 | The token a refresh returns can be redeemed at once, and the one it took no more |
| AuthProofs.UsedTokenIsRefused | src/api/users/refresh/router.py:36-47 | A refresh token that was used once is refused in every later state, at any time |
| AuthProofs.RevocationEndsAllLineages | src/api/users/account/router.py:102-104 | After a password change or revoke-all, every token that is ever accepted for the user descends through its rotations from a login made afterwards |
| AuthProofs.SilencedIsRejected | src/api/security/dependencies.py:42-53 | While the blocklist entry or the expiry stands against a token it is not accepted, at any instant |
| AuthProofs.LoggedOutForGood | src/api/security/dependencies.py:42-57 | A blocked token is rejected in every later state at every instant |
| AuthProofs.LogoutEndsTheToken | src/api/users/logout/router.py:23-25 | After a logout its access token is never accepted again |
| AuthProofs.ExpiryChecksAgree | src/api/users/refresh/router.py:37-39 | The row's expiry check never refuses a token that its `exp` claim still admits, strictly inside the bound |
| AuthProofs.AcceptedIsListed | src/api/users/sessions/router.py:22-29 | A refresh token is accepted if and only if it has not expired, its session is listed for its user at that instant, and the user is active |
| AuthProofs.ListedButExpired | src/api/users/sessions/router.py:22-29 | A session listed though its token has expired is within the last second before the row's expiry |
| AuthProofs.ListedAfterExpiry | src/api/users/sessions/router.py:22-29 | A concrete run, a login half a second past a full second, with an instant at which its session is listed and its token refused |
| AuthProofs.SessionsStayWithTheirUser | src/api/users/logout/router.py:32-39 | A request made with a user's token leaves all other users' sessions unchanged |
| AuthAnswers.LoginAnswers | src/api/users/login/router.py:21-41 | Tokens exactly for an active user with this email and exactly this password, Forbidden for an inactive one, Unauthorized otherwise; a refusal changes nothing, a success adds one token of each kind, for an hour and thirty days, and one session row |
| AuthAnswers.RefreshAnswers | src/api/users/refresh/router.py:28-62 | Tokens exactly for an unexpired refresh token of an active user whose session is not revoked; then that session is revoked and one new one added, all others unchanged; a refusal changes nothing |
| AuthAnswers.NewAccessTokenIsAccepted | src/core/security.py:28-41 | The access token of a login or refresh is accepted at exactly the instants before its expiry, an hour later in whole seconds, while its user stays active |
| AuthAnswers.LogoutAnswers | src/api/users/logout/router.py:18-41 | Done exactly for an accepted access token; its entry lives for the rest of the token's life; one's own unexpired refresh token sent along is never redeemable again, and no other session changes |
| AuthAnswers.RevokeAnswers | src/api/users/sessions/router.py:42-60 | Done exactly for a session of one's own, 404 for any other; exactly that session is revoked |
| AuthAnswers.RevokeAllAnswers | src/api/users/sessions/router.py:64-69 | Exactly the bearer's live sessions are revoked |
| AuthAnswers.PasswordAnswers | src/api/users/account/router.py:86-105 | Done exactly for a bearer who gives the current password; then that user has the new one and exactly that user's live sessions are revoked; a refusal changes nothing |
| AuthService.Service.RecordRefreshSession | src/core/sessions.py:10-20 | The row of a new session carries the token's user and expiry |
| AuthService.Service.RevokeRefreshSession | src/core/sessions.py:23-26 | The session is revoked afterwards if it exists; an earlier revocation keeps its time |
| AuthService.Service.RevokeAllRefreshSessions | src/core/sessions.py:29-34 | All sessions of the user are revoked, those of others untouched |
| AuthService.Service.GetCurrentUser | src/api/security/dependencies.py:34-66 | Returns the user exactly if the token was issued as an access token, has not expired, is not blocked, and its user is active |
| AuthService.Service.Login | src/api/users/login/router.py:16-41 | Answers as LoginAnswers says; the refresh token of a success is redeemable and starts a lineage |
| AuthService.Service.Refresh | src/api/users/refresh/router.py:22-62 | Answers as RefreshAnswers says; the new token is redeemable and the old one no longer |
| AuthService.Service.Logout | src/api/users/logout/router.py:18-41 | Answers as LogoutAnswers says; the access token is rejected at every instant from then on |
| AuthService.Service.RevokeSession | src/api/users/sessions/router.py:42-60 | Answers as RevokeAnswers says |
| AuthService.Service.RevokeAllSessions | src/api/users/sessions/router.py:64-69 | Answers as RevokeAllAnswers says; the user's session list is empty afterwards |
| AuthService.Service.ChangePassword | src/api/users/account/router.py:86-105 | Answers as PasswordAnswers says; the user's session list is empty afterwards |
| AgentCache.RecencyIsDistinct | src/agent/executor.py:15-17 | The specification's key list holds each key of the history exactly once |
| AgentCache.RecencyIsOrdered | src/agent/executor.py:35-37 | It lists keys in the order of their last use |
| AgentCache.LatestIsRecentlyUsed | src/agent/executor.py:35-51 | A key is among the last `n` if and only if it was used and fewer than `n` distinct others were since |
| AgentCache.LatestAfterHit | src/agent/executor.py:35-37 | Using a cached key moves it to the end and evicts none |
| AgentCache.LatestAfterMiss | src/agent/executor.py:49-51 | Using an uncached key appends it and evicts the first exactly if there are too many |
| AgentCache.Cache.GetAgent | src/agent/executor.py:20-53 | For any capacity: it succeeds exactly for a supported provider with a base URL where one is needed, and returns the client of that provider with the key's own model, API key and base URL, as every cached agent is; a hit exactly for a recently used key, returning the cached agent; a miss builds a new one; no other entry appears; a failed build changes nothing; the keys stay those of the specification |
| AgentCache.SmallerIsIncluded | src/agent/executor.py:50-51 | After the same requests a smaller cache holds the last keys of a larger one |
| AgentCache.ServeBoth | src/agent/executor.py:33-53 | After any sequence of calls, failed ones included, a smaller cache's keys are included in a larger one's |
| ChatModels.BuildChatModel | src/agent/llm.py:16-52 | Succeeds exactly for a supported provider that has a base URL if it needs one; each provider gets its own client with the model and key given; a self-hosted model always gets a token and a name |
| AgentSettings.SavedLlmStands | src/api/v1/agent/router.py:368-431 | The LLM configuration saved is the one of the user's last save that sent one, unless a later clear of both or of `llm` took it |
| AgentSettings.SavedSearchStands | src/api/v1/agent/router.py:374-431 | The same for the search configuration |
| AgentSettings.HoldsAfter | src/api/v1/agent/router.py:368-384 | An accepted save or clear leaves the row of any user holding exactly what that user saved last and did not clear |
| AgentSettings.StoredExactlyIfUsable | src/api/v1/agent/schema.py:67-77 | The validator accepts exactly the named configurations that a request without overrides resolves to |
| AgentSettings.ResolveUsesWhatWasSaved | src/api/v1/agent/router.py:58-85 | Resolving succeeds exactly if a named configuration is saved and the override keeps its provider; key and URL are those saved with that provider, and the model can be built exactly for supported providers |
| AgentSettings.Store.Save | src/api/v1/agent/router.py:351-389 | Every row keeps holding exactly what its user last saved and did not clear; only the sent parts of that user's row change |
| AgentSettings.Store.Clear | src/api/v1/agent/router.py:405-432 | The same for clearing by scope |
| AgentSettings.Store.ResolveAgentSettings | src/api/v1/agent/router.py:43-85 | In every reachable state a request gets what its user last saved, and a supported provider can be built |
| ToolEvents.PrefixIsWellFormed | src/agent/tools.py:41-48 | In every prefix of the queue each call has nothing, its start, or its start and then one outcome |
| ToolEvents.StartsAreOutcomesPlusOpen | src/agent/tools.py:41-48 | For each tool name, starts are outcomes plus calls still open |
| ToolEvents.OutcomesNeverExceedStarts | src/agent/tools.py:41-48 | In every prefix a tool has no more outcomes than starts |
| ToolEvents.Toolbox.Begin | src/agent/tools.py:37-41 | A call puts its start event, or nothing without a queue; each call's events stay exactly its own |
| ToolEvents.Toolbox.Finish | src/agent/tools.py:42-48 | A call that returns puts tool_result with its result, one that raises tool_error with its error, a killed one nothing; the outcome is passed on unchanged |
| ToolEvents.QueueIsBalanced | src/agent/tools.py:36-48 | With any number of concurrent calls: outcomes never exceed starts in any prefix, and match them when all calls have ended and none was killed |
| Json.EscapingIsFaithful | src/api/v1/agent/router.py:290 | Escaping a string and reading it back is the identity if and only if it has no split surrogate pair, with and without `ensure_ascii` |
| Json.SplitPairIsLost | src/api/v1/agent/router.py:290 | Such a pair comes back as one character |
| Json.PlainTextIsKept | src/api/v1/data/router.py:136 | Without `ensure_ascii`, text without quotes, backslashes and control characters is printed as it is |
| Json.DumpsIsPrinted | src/api/v1/agent/router.py:288-298 | A dumped value holds no control character, hence no CR or LF, and by default nothing but printable ASCII, whatever strings are in it |
| JsonReader.FloatsAreRefused | src/api/v1/agent/router.py:298 | NaN and the infinities are printed as no JSON value |
| JsonReader.ParseDumps | src/api/v1/agent/router.py:290-298 | What a reader makes of any dumped value: nothing if it holds such a float, else the value with split pairs taken together |
| JsonReader.ParseInvertsDumps | src/api/v1/data/router.py:135-138 | The value comes back if and only if it holds no such float and no split pair |
| Sse.ReadFrame | src/api/v1/agent/router.py:290-316 | Reading one printed frame dispatches exactly its event type and data and leaves the rest of the stream |
| Sse.StreamRoundTrip | src/api/v1/agent/router.py:286-321 | Parsing the concatenated frames gives exactly the events sent, in order |
| ChatStream.Stream.Put | src/api/v1/agent/router.py:271-281 | Anyone may push at any moment; what was sent still is the image of what was taken |
| ChatStream.Stream.Get | src/api/v1/agent/router.py:287-304 | Takes one item: sends what it becomes and reads on, or stops at a Finished event, an exception, or a tool event that does not serialise |
| ChatStream.Stream.RecordTurn | src/api/v1/agent/router.py:308-321 | The turn is recorded and `done` comes next, or the failure ends the stream with `error` and nothing is recorded |
| ChatStream.Stream.EventGenerator | src/api/v1/agent/router.py:264-323 | For a client that stays: the image of the queue up to the first stop, then one terminal frame |
| ChatStream.Interleave | src/api/v1/agent/router.py:264-323 | Any interleaving of pushes, the generator's steps and a disconnect keeps the stream valid; nothing sent is taken back, and nothing is sent or recorded after the end |
| ChatStream.StreamIsOrdered | src/api/v1/agent/router.py:286-323 | A stream that ended sent the image of the queue up to its first stop and one terminal frame that fits it; a turn is recorded at most once, and `done` after an answer only if it was; otherwise a prefix of that image was sent |
| ChatStream.TurnIsTheAnswer | src/api/v1/agent/router.py:302-315 | At every moment, also after a disconnect, a recorded turn is the output of the answer that first stopped the reading |
| ChatStream.OneTerminalFrame | src/api/v1/agent/router.py:316-321 | Exactly one terminal frame, as the last one, if the generator ended by itself; none otherwise |
| ChatClient.ClientReadsWhatWasSent | src/api/v1/agent/router.py:288-321 | At every moment the bytes sent parse to exactly the events sent |
| ChatClient.ClientIsToldEverything | src/api/v1/agent/router.py:264-329 | From queue to client, read by member names: one notice for each known item up to the stop, in order, token notices with the agent under `node` and the text under `delta`, tool notices with name, kind and arguments, a content that reads back as the result, or the error text; and a last one that says how it ended, with the message of what went wrong |
| ChatClient.ClientReadsTheAnswer | src/api/v1/agent/router.py:288-291 | The `delta` strings of the token notices are exactly the texts pushed up to the stop, in order, where these hold no split pair |
| ChatClient.SaysExactly | src/api/v1/agent/router.py:290 | A text is told unchanged if and only if it holds no split pair |
| ChatClient.ToldToolsAreBalanced | src/agent/tools.py:36-48 | The tool activity a client is told about is a beginning of the toolbox's log: every outcome after its own start, and no tool with more outcomes than starts |
| DataApi.MatchesAre | src/api/v1/data/router.py:35-64 | A row is selected exactly if it is the user's, has the job and format asked for where one is, and the search pattern fits its title, URL or preview where one is given |
| DataApi.WhereKeepsOrder | src/api/v1/data/router.py:59-64 | A query keeps the order and the multiplicity of rows |
| DataApi.ListData | src/api/v1/data/router.py:35-64 | The query built step by step selects exactly the filtered rows of the user; total counts them and the page is the `limit` rows from `offset` on, or as many as there are |
| DataApi.SelectForExport | src/api/v1/data/router.py:91-116 | 422 exactly if ids and a filter are given or neither is; by ids exactly the user's rows with these ids, else the filtered rows; no rows is 404 |
| DataApi.ReadAllAndExport | src/api/v1/data/router.py:35-116 | For any filters and page size, all pages concatenated are exactly the selected rows, total is their number, and an export with the same filters gives the same rows |
| DataApi.SplitInvertsJoin | src/api/v1/data/router.py:113-138 | Splitting the body on newline gives the lines joined if and only if there is one |
| DataApi.RecordMembers | src/api/v1/data/router.py:118-132 | Each column stands in the record under its own name |
| DataApi.RowOfItem | src/api/v1/data/router.py:118-132 | A record determines its row: reading its members by name gives every column |
| DataApi.ItemsDiffer | src/api/v1/data/router.py:118-132 | Two rows of a user have the same record only if they are the same |
| DataApi.RecordComesBack | src/api/v1/data/router.py:118-138 | Reading a line of an export gives the row again if and only if its content survives the JSON round trip |
| DataApi.ExportNdjson | src/api/v1/data/router.py:91-143 | Succeeds exactly if ids or filters are given, not both, and rows match; the body then splits into one line for each, in order, and reading the line gives back that row, exactly if its content survives the JSON round trip |

## Left out

- Deleting a cancelled job while its run is still streaming: the outcome rests on the ORM's error recovery, so a job is deleted only when no run holds it.
- Failing commits that the worker survives, row locks and isolation anomalies: commits succeed or crash the worker, handlers are atomic.
- ShallowRefinement.ShallowRefinesStreaming: excludes crashes while rows are pending and deletions that name a pending row, under which the two loops do differ.
- CrawlCancellation.CancelAllowsOneMorePage: bounds one run; a redelivery of a job whose run crashed starts a new run only if the job is not cancelled.
- CrawlWorker.Iterate: the four mode loops have one body up to what a page adds, and are one method here; titles, word counts and previews of results are folded into the body of an item.
- CrawlWorker.RunCrawlJob: a job row that does not exist is a return without effect and has no object here.
- CrawlWorker.RunMode: an engine that raises once more while it is left because of an exception is not told apart from one whose first exception has that message.
- CrawlHistory.GetCrawl: a job deleted between the queries, for which the later ones find no rows, is left out.
- `urls_failed`, which no code writes, and the listing, log and download endpoints of crawls: easy queries.
- AuthProofs.LogoutEndsTheToken: times are exact; the binary rounding of float timestamps is not modelled, and neither is the reader's check of `iat`.
- AuthService.Service.Login: password hashing is equality of passwords.
- `list_sessions` returns its rows newest first with their times; here it is the set of sessions shown (AuthProofs.AcceptedIsListed).
- The primary key of discovered rows is a hypothesis of the deletions' contracts: ids are drawn by the environment.
- AuthService.Service.Logout: the handlers of one request share one clock reading and run one after the other, so concurrent refreshes of one token are not covered.
- Access tokens stay valid after a password change or a session revocation, as in the code; nothing is claimed about ending them there.
- ChatModels.BuildChatModel: the provider constructors are foreign and taken to be total.
- AgentSettings.Store.Save: the timestamp of the row and the masked view of it are left out.
- ChatStream.Stream.EventGenerator: requires that a stop is in the queue; if the run ended with neither a Finished event nor an exception the generator would wait for ever.
- ChatStream.Stream.RecordTurn: the two messages of a turn are one reply here; their order within the turn is not determined by the code.
- ToolEvents.QueueIsBalanced: the tools themselves, their settings and the HTTP client are foreign calls.
- Sse.StreamRoundTrip: the byte encoding is left out, texts are code points; `id` and `retry` fields have no effect and the client's reconnection is not modelled.
- DataApi.ExportNdjson: the ZIP format is left out; content that is no faithful JSON comes back as RecordComesBack says.
- DataApi.ReadAllAndExport: reads all pages of one unchanging table.
- Engines, filter predicates, the settings builder, tracing, web search, the prompt, the dashboard, registration, API keys, configuration, migrations and templates: foreign or easy.
