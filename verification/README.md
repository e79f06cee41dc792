# AITA: stateful parts, modelled and proved in Dafny

AITA is a Go social backend over Postgres and Redis. This project models the parts of it that keep
state over long runs, and proves what every run of them keeps:

- **Timelines.** Create and delete tasks are encoded, queued, handled by one worker under a circuit
  breaker, and applied to one sorted set per user, trimmed to 1000 entries
  (`FanoutTasks.dfy`, `MessageQueue.dfy`, `FanoutWorker.dfy`, `SortedSets.dfy`, `Timeline.dfy`,
  `HomeTimeline.dfy`, with `Decimals.dfy` for 64-bit numbers as text and `Times.dfy`). The sorted
  set is compared with the plain set of live tweets.
- **Sessions.** Tokens with a sliding expiry of 24 hours under a cap of 7 days, refreshed beside
  the requests, and an index set per user with a deadline of its own
  (`SessionStore.dfy`, `Sessions.dfy`, `KeepAlive.dfy`).
- **Follows.** An edge table with two clamped counters per user, changed in a transaction that one
  statement bypasses (`FollowService.dfy`), and cached adjacency lists that are filled lazily and
  patched by pool tasks (`FollowCache.dfy`).
- **Tweets.** A cache filled in the background and invalidated twice (`TweetCache.dfy`), the
  repository (`TweetRepositories.dfy`) and the service with its edit window (`TweetServices.dfy`)
  over it, and batched reading through a cache (`ReadThrough.dfy`).

Code that works by changing state is a class whose methods have loops and fields like the
original's; each method is proved against a function on values, and the results about whole runs
are lemmas about these functions. Redis commands and SQL statements are atomic steps with their
documented meaning. There is one clock. A pool is a bag of tasks that may be performed in any
order, late, or never. What the outside decides (clock readings, whether a user exists, whether
the pool takes a task) is a parameter of a method or an event of a run.

A run is a sequence of worlds joined by events, any of which may come at any time unless
`Enabled` (or `Allowed`) says otherwise, so interleavings need no fairness and no bound.

## Where the code departs from its intent

The model follows the code. Where a promise is false of it, a lemma gives a concrete run, and the
condition under which the promise holds is proved.

- `NewFollowService` sets no transaction manager (internal/service/follow_service.go:35-40); it is
  modelled as the `sqlTransactor` of internal/db/base.go:58-72.
- `UnFollow` lowers both counters also when there was no edge. The counters stay equal to the
  degrees exactly as long as no such call finds anything to count (`CountersStayEqualIff`);
  `CountersFollowEdges` bounds the gap by the number of these calls, and `GapIsReached` reaches it.
- The follow store's `Delete` uses the database and not the transaction; `UnFollow` is all or
  nothing nevertheless, because of the foreign keys.
- The single-row tweet query selects no id (internal/db/tweet_store.go:69). `Get` therefore fills
  cache key 0, answers with id 0, and `RemoveTweet` sends its recall under id 0, which the worker
  drops: a removal reaches the timelines exactly if the tweet was cached
  (`RemovalRecallsIffCached`).
- The double delete works exactly when cache writes land within 800 ms of their store access
  (`DoubleDeleteIsCoherentIff`), while the code gives them up to 10 s. A deletion invalidates only
  once, so a write in flight can bring the tweet back into the cache (`DeletedTweetMayReturn`),
  and nothing else can (`DeletionIsFinalIff`).
- Requests less than 6 hours apart do not keep a session alive by themselves, even if every
  refresh ends before the next request: the refresh must also write before the expiry
  (`SixHoursAreNotEnough`, `RefreshHoldsIff`), and the key's deadline is cut to a whole second.
- Of two refreshes at once, the earlier may be written last and moves the expiry back
  (`CrossingRun`); one at a time never does (`ExpiryNeverMovesBackIff`).
- A list fill that read the table before an unfollow and lands after it leaves a pair in the cache
  that is no edge (`LateFillIsStale`). An unfollow is final exactly when no pooled task carries the
  pair (`UnfollowIsFinalIff`).
- A page of size 1 is always empty (internal/cache/timeline_cache.go:90; `PagesGiveWholeTimeline`).
- `RecallTweet` serves only the first 1000 listed users, in silence, so a later one keeps a deleted
  tweet (`UnservedFollowerKeepsTweet`, `RecallReachesAllIff`).
- Timelines get a time to live of 64 to 81 nanoseconds, which the client rounds up to a second, and not hours
  (internal/cache/timeline_cache.go:39). The loss of a key is an event of the runs, `Expire`,
  after which nothing counts as live.

## Model

| member | source | states |
|---|---|---|
| `Timeline.RedisTimelineCache.PushBatch` | internal/cache/timeline_cache.go:31-54 | every listed user's timeline gains the tweet and keeps its top 1000, once even if the user is listed twice; all others stay |
| `Timeline.RedisTimelineCache.RecallTweet` | internal/cache/timeline_cache.go:56-87 | the tweet is gone from the timelines of the first 1000 listed users, and nothing else changes |
| `Timeline.RedisTimelineCache.BackfillIDs` | internal/cache/timeline_cache.go:124-147 | the timeline is the top 1000 of what it was and all added tweets; an empty list changes nothing |
| `Timeline.RedisTimelineCache.FindRange` | internal/cache/timeline_cache.go:89-122 | the parsed ids at the places start to stop from the newest on, none if start is not below stop |
| `SortedSets.RemoveLowestKeepsTop` | internal/cache/timeline_cache.go:38 | removing ranks 0 to -(k+1) keeps exactly the k entries with fewer than k above them |
| `SortedSets.TrimAbsorbsEarlierTrim` | internal/cache/timeline_cache.go:37-38 | trimming before a later addition and trim changes nothing |
| `SortedSets.RankedListsAll` | internal/cache/timeline_cache.go:95-100 | the reverse range lists every member once, each above all that follow |
| `SortedSets.LexLessIff` | internal/cache/timeline_cache.go:37 | members of equal score are ordered by their first different bytes, a text before its extensions |
| `Timeline.TimelineHoldsNewestLive` | internal/cache/timeline_cache.go:31-87 | after every run of pushes, backfills and recalls: at most 1000 entries, all live with their scores; a live tweet that lacks has at least 1000 - r entries above it, so the newest 1000 - r live tweets are all there |
| `Timeline.NewestTweetsAreHeld` | internal/cache/timeline_cache.go:31-87 | in ids and creation times: of the tweets added and not since recalled, one that is lacking has at least 1000 - r tweets of a later second, or of the same second and a greater id text, in the timeline, and one with fewer than 1000 - r others of its second or later is in it |
| `Timeline.OnlyLiveTweetsAreHeld` | internal/cache/timeline_cache.go:56-87 | every member is the id of a tweet that was added and not since recalled, scored by its creation second |
| `Timeline.LiveIff` | internal/cache/timeline_cache.go:31-87 | the live tweets of a run are those some event added and no later event recalled or lost |
| `Timeline.LastAdditionSetsScore` | internal/cache/timeline_cache.go:132-137 | of repeated additions the last sets the score, and other members keep theirs |
| `Timeline.NoRecallIsExact` | internal/cache/timeline_cache.go:31-54 | with no effective recall the timeline is exactly the top of the live tweets |
| `Timeline.AdditionsCommute` | internal/cache/timeline_cache.go:124-147 | any order, batching and repetition of additions of the same tweets gives the same timeline, the top 1000 of them all |
| `Timeline.GapIsReached` | internal/cache/timeline_cache.go:56-87 | the bound is sharp: for every r up to 1000 some run with r recalls lacks a live tweet with only 1000 - r live ones above it |
| `HomeTimeline.GetHomeTimeLine` | internal/repository/timeline_repository.go:39-45 | a page is the range from page times size on, in 64-bit arithmetic |
| `HomeTimeline.PagesArePrefix` | internal/repository/timeline_repository.go:39-45 | the first n pages of size two or more are the first n times size ids |
| `HomeTimeline.NewestFirstIsTheTimeline` | internal/cache/timeline_cache.go:112-121 | the ids read are those stored, each once, highest first; parsing loses none |
| `HomeTimeline.NewestComeFirst` | internal/cache/timeline_cache.go:95-100 | after every run an earlier place holds a tweet of a later second, or of the same second and a greater id text |
| `Timeline.ReadIDsPassesOver` | internal/cache/timeline_cache.go:112-121 | every text that is a 64-bit integer is read in its order among those, the others are passed over |
| `HomeTimeline.PagesGiveWholeTimeline` | internal/cache/timeline_cache.go:90-92 | enough pages give the whole timeline if and only if the page size is not 1 or the timeline is empty |
| `HomeTimeline.RunsHoldIDs` | internal/cache/timeline_cache.go:31-54 | the timelines that runs build hold nothing but ids, so the page results apply to them |
| `Decimals.Wrap64IsCongruent` | internal/repository/timeline_repository.go:40-41 | page arithmetic wraps to the 64-bit value that differs by a multiple of 2^64 |
| `Decimals.ParseUndoesFormat` | internal/pkg/utils/helper.go:55-62 | parsing the decimal text of any 64-bit integer gives it back without error |
| `Decimals.ParseClampsFormat` | internal/pkg/utils/helper.go:55-62 | the text of any integer parses to it, or to the nearest 64-bit bound with an error |
| `Decimals.OnlyDigitsParse` | internal/pkg/utils/helper.go:55-62 | only digits after an optional sign parse; nothing else does |
| `Decimals.FormatIsInjective` | internal/cache/timeline_cache.go:65 | different ids are different members |
| `FanoutTasks.FanoutTask.ToMap` | internal/dto/timeline_dto.go:31-38 | the map is the task's encoding |
| `FanoutTasks.FanoutTask.FromMap` | internal/dto/timeline_dto.go:40-64 | the receiver and the outcome are those of decoding, also where a refused id is written all the same |
| `FanoutTasks.DecodeUndoesEncode` | internal/dto/timeline_dto.go:31-64 | decoding gives back every encoded task with its time cut to the second, over the whole 64-bit range, succeeds exactly for positive ids, and keeps the score |
| `MessageQueue.RedisMQ.Enqueue` | internal/pkg/messagequeue/redis_mq.go:41-53 | the message is appended to the stream and nothing else changes |
| `MessageQueue.RedisMQ.Dequeue` | internal/pkg/messagequeue/redis_mq.go:56-78 | the next undelivered message, which becomes pending, or none |
| `MessageQueue.RedisMQ.Ack` | internal/pkg/messagequeue/redis_mq.go:80-86 | a pending message becomes acknowledged; others stay |
| `FanoutWorker.Worker.HandleTask` | internal/worker/fanout_worker.go:87-109 | success exactly as the messages and the surroundings decide, and the effect of that one task on every timeline |
| `FanoutWorker.Worker.ProcessCreate` | internal/worker/fanout_worker.go:111-142 | fails exactly if followers cannot be read, or there are some and the pool or the write fails; otherwise their timelines gain the tweet |
| `FanoutWorker.Worker.ProcessDelete` | internal/worker/fanout_worker.go:144-177 | the same for taking the tweet out |
| `FanoutWorker.Worker.Start` | internal/worker/fanout_worker.go:46-85 | over any turns the loop ends in the queue, the two variables and the timelines of the step-by-step specification |
| `FanoutWorker.QueueIsConserved` | internal/pkg/messagequeue/redis_mq.go:41-86 | each message is undelivered, pending or acknowledged and only one of them; delivered ones were handled once, in stream order; acknowledged ones succeeded; a failed one stays pending for ever |
| `FanoutWorker.BreakerAlwaysHolds` | internal/worker/fanout_worker.go:47-82 | failCount is below 20 and counts the failures since the last success or trip, and nothing is handled while the breaker is open |
| `FanoutWorker.FailuresSpanPause` | internal/worker/fanout_worker.go:77-81 | any 21 failures with no success between them span at least 30 s |
| `FanoutWorker.OpenMeansTwentyFailures` | internal/worker/fanout_worker.go:73-81 | the breaker opens only on twenty failures in a row, for 30 s from the last of them |
| `FanoutWorker.HandledTaskIsDecided` | internal/worker/fanout_worker.go:70-177 | over every run, a handled create or delete task is acknowledged if and only if its followers were read and there were none or the pool and the write worked, else pending; acknowledged, it has pushed its tweet to every listed follower or taken it from the first 1000, and otherwise changed no timeline |
| `FanoutWorker.ImproperMessageIsDropped` | internal/worker/fanout_worker.go:87-106 | a message with a field missing, a nonpositive id or another action is acknowledged and changes nothing |
| `FanoutWorker.TurnOf` | internal/worker/fanout_worker.go:60-70 | every handled message was handled in some turn |
| `FanoutWorker.WorkerRunsTimelines` | internal/worker/fanout_worker.go:87-177 | what a worker does to a user's empty timeline is a run of pushes and recalls |
| `FanoutWorker.EncodedIsHonest` | internal/producer/fanout_producer.go:30-32 | an encoded create task names its tweet and creation second when decoded |
| `FanoutWorker.WorkerTimelinesHoldNewest` | internal/worker/fanout_worker.go:46-177 | from the queue to the timelines: in every run over such messages whose deletes list the user among the first 1000, the timeline holds at most 1000 tweets, all live by the handled messages, with all the newest 1000 - r |
| `FanoutWorker.RecallReachesAllIff` | internal/cache/timeline_cache.go:61-73 | a delete takes the tweet from the timelines of all listed followers if and only if it lists at most 1000 |
| `FanoutWorker.UnservedFollowerKeepsTweet` | internal/worker/fanout_worker.go:144-177 | a run after which a later follower holds a tweet whose delete message succeeded |
| `SessionStore.RedisSessionStore.Insert` | internal/db/redis_session_store.go:35-71 | a hash is written only if free and unexpired; the index gains it, with one deadline for all members, also when the hash was taken |
| `SessionStore.RedisSessionStore.Read` | internal/db/redis_session_store.go:73-97 | the session, or not found, or expired |
| `SessionStore.RedisSessionStore.Replace` | internal/db/redis_session_store.go:99-133 | only an existing key is written, with its deadline cut to a second; the index is written either way |
| `SessionStore.RedisSessionStore.Remove` | internal/db/redis_session_store.go:135-160 | the key and its index entry are gone; the outcome says whether the key was there |
| `SessionStore.RedisSessionStore.RemoveByUserID` | internal/db/redis_session_store.go:162-188 | all indexed keys and the index are gone |
| `Sessions.SessionService.Issue` | internal/service/session_service.go:121-144 | a session with the expiry and creation time read, stored under the token's hash |
| `Sessions.SessionService.Authenticated` | internal/service/session_service.go:68-84 | the stored session if the token is well formed, found, and within expiry and cap |
| `Sessions.SessionService.Validate` | internal/service/session_service.go:146-162 | the authenticated session, unless its user does not exist |
| `Sessions.SessionService.ExecuteRefresh` | internal/service/session_service.go:86-105 | what was read is written back with the new expiry, capped, at three instants |
| `Sessions.SessionService.Revoke` | internal/service/session_service.go:179-199 | only the owner's valid session is deleted, otherwise nothing changes |
| `Sessions.IndexCoversExactlyWithSlack` | internal/db/redis_session_store.go:45-53 | in every run every live session is in its user's index, which outlives it, if and only if the slack is a session's duration (less one millisecond); the code's is enough |
| `Sessions.ShortSlackLosesSession` | internal/db/redis_session_store.go:117 | with less slack a write with little time left cuts the index below another session |
| `Sessions.RemoveAllEndsEverySession` | internal/db/redis_session_store.go:162-188 | deleting by user in any reachable state leaves none of that user's sessions alive and no other key touched |
| `Sessions.ValidTimesFormAnInterval` | internal/service/session_service.go:146-199 | over every interleaving with split refreshes the places where an issued hash validates form one interval from Issue on; user and creation time never change and the expiry stays under the cap |
| `Sessions.AnswerIsTheIssued` | internal/service/session_service.go:68-84 | in every run a token that validates is answered with the issued session: its user, hash and creation time, and an expiry that is ahead and at most 7 days from creation |
| `Sessions.RevokeIsDecided` | internal/service/session_service.go:179-199 | the owner of a valid session revokes it and it validates never again; another user is forbidden, an invalid token is an error, and then nothing changes |
| `Sessions.IssueIsDecided` | internal/db/redis_session_store.go:35-71 | an issue succeeds if and only if its expiry is ahead and the hash cannot be read, and then the session is read back |
| `Sessions.RefreshIsDecided` | internal/db/redis_session_store.go:99-133 | the write of a refresh succeeds if and only if its expiry is ahead and the session can be read, and then it is read back |
| `Sessions.RemoveIsDecided` | internal/db/redis_session_store.go:135-160 | a removal succeeds if and only if the session can be read, and it cannot be read afterwards |
| `Sessions.RemovedNeverValidates` | internal/service/session_service.go:179-199 | in every run a removed session never validates again, whatever refresh is in flight |
| `Sessions.ExpiryNeverMovesBackIff` | internal/service/session_service.go:86-119 | in all runs with at most n refreshes of a session under way at a time its stored expiry never moves back, if and only if n is at most 1 |
| `Sessions.CrossingRun` | internal/service/session_service.go:107-119 | a run with two refreshes at once that moves the expiry back |
| `KeepAlive.AuthMiddleware.Handle` | internal/api/middleware.go:20-46 | validate, ask, refresh, in this order; a malformed token or a missing user changes nothing |
| `KeepAlive.RequestIsDecided` | internal/service/session_service.go:164-177 | in every reachable state a request passes if and only if the key is there, and changes the session if and only if a quarter or less of its life is left and the refresh writes in time; then it has another day, under the cap |
| `KeepAlive.SpacedRequestsPass` | internal/service/session_service.go:164-177 | requests within a quarter of the first life, less a second, of the one before, whose refreshes end by then too, all pass up to the last second under the cap and never move the expiry back; how long the last refresh takes does not matter |
| `KeepAlive.KeepAliveFromIssue` | internal/service/session_service.go:121-136 | the same from Issue on, the gap being 6 h less a second |
| `KeepAlive.NonePassesAfterCap` | internal/service/session_service.go:61-63 | in every run, no request of an issued hash passes after its creation plus 7 days |
| `KeepAlive.RefreshHoldsIff` | internal/db/redis_session_store.go:108-115 | a refresh lets a request past the old deadline through if and only if it wrote before that deadline and before the new expiry, and the request comes by the new expiry's last whole second |
| `KeepAlive.SixHoursAreNotEnough` | internal/api/middleware.go:35-37 | requests less than 6 h apart whose refreshes all end in time for the next, one of which is refused |
| `FollowService.Database.DeleteFollow` | internal/db/follow_store.go:126-133 | the edge goes from the committed tables at once, inside or outside a transaction |
| `FollowService.Database.InsertFollow` | internal/db/follow_store.go:26-65 | the edge is added, or the violated constraint is reported and nothing changes |
| `FollowService.Database.IncreaseFollowerCount` | internal/db/user_store.go:102-115 | the count changes by delta but not below 0; a missing user is reported |
| `FollowService.Database.IncreaseFollowingCount` | internal/db/user_store.go:117-131 | the same for the following count |
| `FollowService.FollowService.Follow` | internal/service/follow_service.go:42-80 | edge and both counters change together, or a failure leaves the committed tables as they were |
| `FollowService.FollowService.UnFollow` | internal/service/follow_service.go:82-120 | all or nothing although the deletion bypasses the transaction |
| `FollowService.FollowIsDecided` | internal/service/follow_service.go:42-80 | in every reachable state a follow is carried out if and only if both ids are positive and differ, both users exist and there is no edge; it adds that edge and one to each counter; every other case has its error and changes nothing |
| `FollowService.UnFollowIsDecided` | internal/service/follow_service.go:82-120 | an unfollow is carried out if and only if both ids are positive and differ and both users exist; that edge is gone, the others stay |
| `FollowService.CountersFollowEdges` | internal/service/follow_service.go:42-120 | over every run each counter is at most the degree and short of it by at most the user's unfollows that deleted no edge, and so are the sums against the number of edges; with none, all are equal |
| `FollowService.UnFollowKeepsEqualIff` | internal/service/follow_service.go:96-113 | where counters equal degrees, an unfollow keeps them equal if and only if there was an edge, or the target had no follower and the user followed no one |
| `FollowService.CountersStayEqualIff` | internal/service/follow_service.go:42-120 | counters equal degrees all through a run if and only if every unfollow in it was of that kind |
| `FollowService.GapIsReached` | internal/db/user_store.go:102-115 | for every n some run with n unfollows of no edge leaves a counter n short of the degree |
| `FollowService.UnFollowUndoesFollow` | internal/service/follow_service.go:42-120 | an unfollow undoes every follow that succeeded, edge and counters |
| `FollowService.FollowUndoesUnFollowIff` | internal/db/user_store.go:102-131 | a follow undoes an unfollow if and only if there was an edge and neither counter was at 0 already |
| `FollowService.DegreesSumToEdges` | migrations/000008_add_check_to_follows_table.up.sql:5-14 | in-degrees and out-degrees each sum to the number of edges |
| `FollowCache.FollowRepository.Create` | internal/repository/follow_repository.go:55-90 | a new edge and one queued patch, or the error and no change; the cache is left to the pool |
| `FollowCache.FollowRepository.RemoveFollow` | internal/repository/follow_repository.go:211-223 | the edge and both cached lists are gone |
| `FollowCache.FollowRepository.List` | internal/repository/follow_repository.go:128-209 | the cached list if not empty, otherwise the newest 1000 rows and one queued fill |
| `FollowCache.FollowRepository.CheckRelation` | internal/repository/follow_repository.go:92-126 | the flags from the cache if both lists of the asking user are cached, otherwise from the table |
| `FollowCache.FollowRepository.Drain` | internal/cache/follow_cache.go:15-122 | the queued tasks are applied in order |
| `FollowCache.CourseKeepsRefines` | internal/repository/follow_repository.go:55-223 | with the pool drained between operations every cached list lies between the newest 1000 and all current edges |
| `FollowCache.CacheAgreesWithTable` | internal/repository/follow_repository.go:92-209 | for users of at most 1000 edges each way the lists through the cache are the table's, and each of the three flags says what the table does |
| `FollowCache.ColdListIsCompleteIffWithinLimit` | internal/db/follow_store.go:68-109 | a list read from the table is complete if and only if there are no more than 1000 edges |
| `FollowCache.RecentAreNewest` | internal/db/follow_store.go:70-76 | an edge a list query leaves out was made before every edge it returns, or at the same time with a smaller id |
| `FollowCache.CachedPairsWereInserted` | internal/cache/follow_cache.go:65-122 | in every interleaving every cached pair was inserted before and is an edge or was deleted; without deletions all are edges |
| `FollowCache.LateFillIsStale` | internal/repository/follow_repository.go:155-161 | a run after which the pool is empty and the cache holds a pair that is no edge |
| `FollowCache.StaysOutIff` | internal/cache/follow_cache.go:15-122 | a pair that is no edge and in no list stays out of the cache in every continuation, until it is inserted again, if and only if no pooled task carries it |
| `FollowCache.UnfollowIsFinalIff` | internal/repository/follow_repository.go:211-223 | so an unfollow is final if and only if no pooled task carries the pair as it begins |
| `TweetCache.DoubleDeleteIsCoherentIff` | internal/repository/tweet_repository.go:84-99 | in every interleaving a stored tweet with no second invalidation outstanding is uncached or cached as stored, if and only if cache writes land within 800 ms of their store access |
| `TweetCache.ReadsQueueWrites` | internal/repository/tweet_repository.go:133-185 | every read of a stored tweet queues a cache write of what was read, under key 0 for a single read and as SETNX for a batch |
| `TweetCache.SlowFlightStaysStale` | internal/repository/tweet_repository.go:60-69 | for every longer bound, a run that leaves a stale copy with nothing in flight or outstanding that would repair it |
| `TweetCache.DeletionIsFinalIff` | internal/repository/tweet_repository.go:101-111 | a deleted, uncached tweet stays uncached in every continuation if and only if no write of its key is in flight that is still within its bound |
| `TweetCache.DeletedTweetMayReturn` | internal/repository/tweet_repository.go:101-111 | a run in which a write in flight brings a deleted tweet back |
| `TweetRepositories.TweetRepository.Create` | internal/repository/tweet_repository.go:52-82 | a new row under a new id with one cache write queued, or the error and no change |
| `TweetRepositories.TweetRepository.UpdateContent` | internal/db/tweet_store.go:83-106 | only another text is written, cut to the column, with the mark; nothing else of the row changes |
| `TweetRepositories.TweetRepository.Update` | internal/repository/tweet_repository.go:84-99 | row written, key dropped, second invalidation queued for 800 ms later |
| `TweetRepositories.UpdateIsThreeSteps` | internal/repository/tweet_repository.go:84-99 | this is three steps of the cache protocol, so its results apply |
| `TweetRepositories.TweetRepository.Delete` | internal/repository/tweet_repository.go:101-111 | row and key are gone, or not found |
| `TweetRepositories.TweetRepository.Get` | internal/repository/tweet_repository.go:113-150 | the cached tweet, or the stored one under id 0 with a write of key 0 queued |
| `TweetRepositories.TweetRepository.RunFlight` | internal/cache/tweet_cache.go:153-193 | the queued write lands, leaving an existing key alone if it came from a batch |
| `TweetRepositories.TweetRepository.RunSecondDelete` | internal/repository/tweet_repository.go:93-97 | the key is dropped once the delay has passed |
| `TweetRepositories.SameAfterFitIff` | migrations/000003_add_content_limit_to_tweets.up.sql:1 | a text that differs from the stored one stores the same if and only if that is a full column and the text adds only spaces |
| `TweetRepositories.StepKeepsFaithful` | internal/repository/tweet_repository.go:52-150 | through every step, however stale, all copies of a tweet agree on its owner and creation time |
| `TweetServices.TweetService.PostTweet` | internal/service/tweet_service.go:37-66 | bad user and empty text are refused; otherwise the row and its create message |
| `TweetServices.TweetService.FetchTweet` | internal/service/tweet_service.go:68-80 | bad ids are refused; otherwise what the repository gives |
| `TweetServices.TweetService.ToMyTweet` | internal/service/tweet_service.go:82-99 | mine, another's (handed over all the same), or the error |
| `TweetServices.TweetService.EditTweet` | internal/service/tweet_service.go:101-132 | checks in order, another's edit answered like a success, the same text left alone, the window, the update |
| `TweetServices.TweetService.RemoveTweet` | internal/service/tweet_service.go:134-162 | another's removal answered without error; the owner's deletes and sends a recall |
| `TweetServices.OnlyOwnersTouchRows` | internal/service/tweet_service.go:101-162 | in every course of calls and pool tasks, on caches however stale: a row goes only by its owner's removal, changes only by its owner's edit within ten minutes of creation and to another text, and comes only unedited under an id never used |
| `TweetServices.BirthIsForEver` | internal/db/tweet_store.go:83-106 | owner and creation time of a tweet never change |
| `TweetServices.EditedIffRewritten` | internal/db/tweet_store.go:84-87 | a tweet is marked as edited if and only if some edit of it was accepted |
| `TweetServices.EditedIffContentChanged` | internal/db/tweet_store.go:84-87 | while edits ask for at most 1000 characters, as requests do (internal/pkg/app/request.go:33-35), a tweet is marked as edited if and only if some edit changed its content |
| `TweetServices.RewritingChangesUnlessPadded` | internal/db/tweet_store.go:84-87 | an accepted edit changes the content if and only if it does not pad a full column with spaces |
| `TweetServices.FetchGivesStored` | internal/service/tweet_service.go:68-80 | when cache writes land within 800 ms, a fetch with no invalidation outstanding gives the stored tweet |
| `TweetServices.OwnEditIsDecided` | internal/service/tweet_service.go:101-132 | with no invalidation outstanding the owner's edit is decided by the stored row: it changes if and only if the text is another, the window is open and the column takes it, with the answer for each case |
| `TweetServices.PostIsDecided` | internal/service/tweet_service.go:37-66 | a post is accepted if and only if the user exists and the text is not empty and fits; it makes one unedited row under a new id with that text and time, one cache write and one message |
| `TweetServices.UnknownIsRefused` | internal/service/tweet_service.go:68-99 | ids, users and texts out of range have their errors, and a tweet neither stored nor cached is not found |
| `TweetServices.RemovalTakesOut` | internal/repository/tweet_repository.go:101-111 | in every course the owner's removal leaves the tweet in neither table nor cache, so that it is not found, and every other row and key as it was |
| `TweetServices.RemovalIsFinalIff` | internal/repository/tweet_repository.go:101-111 | it is not found in every continuation if and only if no write of its key was in flight that could still land |
| `TweetServices.OthersChangeNothing` | internal/service/tweet_service.go:110-115 | an edit or removal by anyone else leaves rows, cache and messages as they are and returns no error |
| `TweetServices.RemovalRecallsIffCached` | internal/service/tweet_service.go:152-158 | the owner's removal makes the worker recall the tweet if and only if it was cached |
| `TweetServices.PostPushes` | internal/service/tweet_service.go:57-63 | the create message makes the worker push the tweet under its id and creation second |
| `ReadThrough.Repository.MultiGetCached` | internal/cache/tweet_cache.go:85-135 | all hits, or nothing if a positive id is missing; other ids are passed over |
| `ReadThrough.Repository.MultiGet` | internal/repository/tweet_repository.go:152-203 | hits and selected rows in request order, one queued backfill, or the size error |
| `ReadThrough.Repository.RunBackfill` | internal/cache/tweet_cache.go:153-193 | the first queued rows are added where no key exists, and what was cached stays |
| `ReadThrough.BatchedIsPointwise` | internal/repository/user_repository.go:184-235 | over a coherent cache the batched read gives the stored rows in request order, and fails if and only if some id is uncached and more than 500 are asked for |
| `ReadThrough.LookedIsRequestOrder` | internal/repository/tweet_repository.go:195-202 | pointwise lookup keeps order and duplicates |
| `ReadThrough.LookedInPlace` | internal/repository/tweet_repository.go:195-202 | whatever is asked for, each id that has a row gives it in its place among those, the others give nothing |
| `ReadThrough.BackfillLeavesCached` | internal/cache/tweet_cache.go:176 | a backfill writes only keys that were not there |
| `ReadThrough.BackfillsKeepCoherent` | internal/repository/tweet_repository.go:176-185 | any number of backfills of stored rows keeps the cache coherent, loses nothing cached and covers all rows asked for |

## Left out

- HTTP handlers, other request checks, response envelopes, configuration, error code mapping, registration and login.
- SHA-256, bcrypt and token generation: `Hash` stands for an injective function, tokens are parameters.
- Lost connections, half-performed pipelines, refused pool tasks and clock skew, apart from what the worker's surroundings and the dropped cache writes cover.
- Sub-millisecond instants of sessions and tweets: one clock in milliseconds, deadlines included.
- Scores above 2^53, which Redis keeps as floating point: scores are integers.
- MAXLEN trimming of the stream, and the consumer's blocking time.
- FollowCache.FollowRepository.List: does not model the order of the ids, nor the scores of cached members; the results are about which ids a list holds.
- Shared flights of the single-flight groups: in particular two `CheckRelation` calls of opposite direction may be given each other's orientation.
- `DeleteByUserID` between its read of the index and its deletes: it is one step.
- The deletion of users, which this code never does: whether a session's user exists is a parameter of `Validate`.
- The length limit and trimming of tweet texts by the request layer: `EditedIffContentChanged` names the limit it relies on. The service alone does not keep longer texts out, and given a full column and one more space it would mark a tweet whose content stays (`PaddedEdit`).
- `GetMyTweets` and the rebuilding of a short first page: their SQL is malformed (internal/db/tweet_store.go:160).
- The columns updated_at and image_url of tweets, and ids that a refused insert uses up.
- The lengths of random expirations: a cached key may expire at any time.
- The user profile cache and its counters (internal/cache/user_cache.go:38-188), which nothing modelled reads.
- Interleavings inside one service call on tweets: calls are atomic there, while in `TweetCache` every step of an update may interleave.
- Calls to `Follow` and `UnFollow` at the same time: they come one after another.
