# Verified model of the video feed backend

This project models the stateful core of the feed backend and proves that its fast paths agree
with simpler descriptions. Redis keys, database tables, queues, channels and clocks are explicit
state; each handler is a method over that state, tied to a function of the old state; the theorems
are about those functions, mostly over whole runs. Outside calls that can fail are parameters.

## Files

| file | contents |
|---|---|
| Sequences, Decimals | sequence helpers; decimal text as strconv prints and parses it, and its bytewise order |
| CursorCodec | cursors as decimal text in unpadded URL-safe base64 (section 5 of RFC 4648, padding omitted as in section 3.2) |
| SortedSets | the Redis sorted-set commands, ties ranked by member text |
| Timeline | insert and cut of the bounded global timeline |
| GlobalFeed, FeedPages, FeedRuns | the feed service; what one page promises and exactly when; whole runs of one walking client among publishes, deliveries, deletions, evictions and rebuilds |
| FeedCoverage | exactly which steps keep the pages from losing a row, and which keep the timeline's stronger coverage |
| Outbox, OutboxRuns | from the committed row through queue or direct write to the timeline; what is in the timeline after any run, and how a backlog drains |
| Counters, CounterRuns | ratings, comments and the denormalised counts; which rows a run leaves |
| RatingCache | the two cached rating sets in front of the table and its queue |
| VideoReader, Staleness | the three-level entity reader; timed runs of it |
| SseHub | the notification hub's channels |
| RateLimit | the fixed-window limiter |
| Popularity, HotListRuns | minute buckets, rankings and their pages; whole runs of them |
| Sessions | the token keys of login, refresh and logout |

## Assumptions

- Feed: ids and creation times grow together, and a video's outbox time, which becomes its score,
  lies between its own creation time and the next video's. First deliveries come in publish order;
  events may be dropped and, once delivered, come again in any order. A first page comes after
  every score; later pages carry cursors that earlier pages handed out. The timeline's capacity is
  any positive number; the source uses 1000.
- Outbox: row ids and video ids are handed out once.
- Counters: the counts are unsigned columns (`internal/model/video/video.go:25-27`), where subtracting
  below zero is an error that rolls the transaction back. Votes and comments name ids that have been
  handed out (the video may be gone by then). The comment service looks the video up before it passes a comment on
  (`internal/service/video/comment.go:61-67`); for votes nothing checks it.
- Entity cache: a write commits and removes the Redis key in one step; reads are taken apart.
- Rating cache: the queue keeps the order of votes; Redis commands succeed; keys may expire at any moment.
- Hot list: the clock does not go back; Redis keeps every key until it expires.
- Sessions: refresh tokens are new each time, keys do not expire, cache commands succeed.

## Where the code falls short of the property

Each of these is proved, with the condition under which the property does hold:

- The publish helper drops the broker's result (`internal/data/rabbitmq.go:112`), so a message that the
  broker released or rejected counts as published: its outbox row is deleted and the event is lost
  (`SendConserves`, `EventsAreConserved`, `ReleasedEventIsLost`).
- Pages skip a delivered video exactly when it is missing from the timeline above another video that is
  there (`PagesOkIff`). An event delivered again can bring that about, by putting an old video into a
  timeline that lacks newer ones, and so can a dropped event; no other step can (`StepKeepsPagesIff`,
  `RunStaysClearIff`, `RedeliveryCanSkipAVideo`, `DroppedEventCanSkipAVideo`). That every delivered row from
  the lowest score upwards is in the timeline is more than pages need (`StepCoversIff`,
  `UncoveredIsNotShadowed`).
- The rating cache is written before anything that can fail. A vote that then gets nowhere, is dropped by
  the consumer, or is overwritten by an older one in flight leaves it wrong (`RatedAgreesIff`,
  `DropAgreesIff`, `FailedLikeStays`, `DroppedLikeStays`, `OvertakenWithdrawalIsUndone`). A warm-up while a
  vote is in flight can revive a like that was taken back (`WarmupAgreesIff`, `UndoneLikeCanReturn`).
  After a warm-up without likes, video 0 counts as liked (`SentinelIsLiked`). Votes after the keys expired
  bring them back without what they held, and without a time to live; once both are there, only a login or
  another vote on the video repairs it (`ExpiryAgreesIff`, `RefillAgreesIff`, `OnlyLoginRefills`,
  `ExpiredLikeIsLost`).
- Votes are not checked against existing videos, so one for a future id is missing from that video's
  counts and cannot be withdrawn (`NewVideoMatchesIff`, `EarlyLikeIsLost`).
- Two deletions of one comment, or two withdrawals of one vote, that run at the same time are both counted,
  unless the second one's count would fall below zero
  (`LateDeleteKeepsIff`, `DoubleDeletionMiscounts`, `LateVoteKeepsIff`, `DoubleWithdrawalMiscounts`).
- A write can overtake a read on its way into the caches; then answers can be as old as a Redis key lives,
  and five seconds more (`LandingIsSafeIff`, `OvertakenReadIsStale`, `AnswersAreBounded`).
- A failed union is not reported and shows as an empty ranking (`ListedIsExact`).
- The limiter truncates its window to seconds: under one second it never limits, and with
  milliseconds left over an interval as long as configured can admit more than twice the maximum
  (`BoundedIff`). The windows that the routes configure are whole minutes, where the bound holds.
- A refresh that fails to sign its access token has already dropped the session
  (`LiveTokenIsTheLastIssued`, `CallsRetire`).
- The comment on the retry helper promises up to `retries` repeats with waits of 1, 2 and 4 seconds;
  the code makes `retries` calls in all, so three attempts wait 1 and 2 seconds (`RetryWithBackOff`).
- A cursor with a zero field encodes but does not decode (`CursorRoundTrip`).

## Model

| member | source | states |
|---|---|---|
| CursorCodec.CursorRoundTrip | internal/model/video/video.go:110-134 | Decoding an encoded cursor gives back the same milliseconds and id exactly when neither is zero, and an error otherwise, for every int64 time and uint64 id |
| CursorCodec.CursorInjective | internal/model/video/video.go:110-113 | Two different cursors never share a text, whether or not it decodes |
| CursorCodec.EncodingIsUrlSafe | internal/model/video/video.go:110-113 | Every character of every cursor text is a letter, a digit, - or _ |
| CursorCodec.KnownTexts | internal/model/video/video.go:112-117 | Two test vectors of section 10 of RFC 4648, and the two characters that section 5 changes |
| CursorCodec.DecodedIsRepresentable | internal/model/video/video.go:115-134 | Whatever text is decoded, a cursor that comes out is within int64 and uint64 and has no zero field |
| CursorCodec.RegroupUngroups | internal/model/video/video.go:112-117 | Unpadded URL-safe base64 decodes to the bytes it was made from, for every length |
| CursorCodec.SplitsAtFirstComma | internal/model/video/video.go:121-124 | The split takes the first comma only |
| Decimals.ParseIntFormats | internal/model/video/video.go:111-125 | Signed decimal text parses back to the same number over the whole int64 range |
| Decimals.ParseUintFormats | internal/model/video/video.go:111-126 | Decimal text parses back to the same number over the whole uint64 range |
| Decimals.ParseUintOf | internal/model/video/video.go:125-126 | Any text of digits parses to its value, or to the largest number; any other text to 0 or to the largest number |
| Decimals.TextBelowIff | internal/data/redis.go:133-140 | The order of members with equal scores is bytewise: after a common beginning, the text that ends or has the smaller character comes first |
| SortedSets.AddSpec | internal/data/redis.go:133-140 | ZADD keeps rank order, moves a present member to its new score, and touches no other entry |
| SortedSets.AddAllSpec | internal/data/redis.go:142-157 | A batch of distinct members ends up in the set with its scores; entries of other members stay |
| SortedSets.RemoveSpec | internal/data/redis.go:196-199 | ZREM removes exactly that member and keeps rank order |
| SortedSets.RankedUnique | internal/data/redis.go:83-131 | Rank order is determined by the entries alone |
| SortedSets.TrimKeepsHighest | internal/worker/timeline.go:55 | Removing ranks 0 to -(cap+1), the cut of the timeline, keeps exactly the cap highest entries, also when there are fewer |
| SortedSets.SortedSet.ZAddBatch | internal/data/redis.go:142-157 | An empty batch changes nothing; otherwise all members are stored in order |
| SortedSets.SortedSet.ZRevRangeByScore | internal/data/redis.go:83-131 | The first limit entries, highest first, of what the over-fetch of 2*limit leaves after the second filter |
| SortedSets.SecondFilter | internal/data/redis.go:105-130 | The loop with its continue and break computes filter-then-cut |
| Timeline.WriteTimeline | internal/worker/timeline.go:46-56 | Insert then cut: ok only if both succeed, a failed insert changes nothing, a failed cut leaves the insert |
| Timeline.RemoveVideoCache | internal/repository/video/timeline.go:19-28 | Takes exactly the member of the deleted video out of the timeline; a failed removal is reported and changes nothing |
| Timeline.CutBetween | internal/worker/timeline.go:46-56 | Any set between the newest cap entries and all entries cuts to the newest cap |
| Timeline.TimelineIsTopK | internal/worker/timeline.go:46-56 | After any sequence of writes with repeats, in any order and with failed cuts, the timeline lies between the newest cap of all distinct events and all of them; after a successful cut it is exactly the newest cap |
| Timeline.OrderAndRepeatsDoNotMatter | internal/worker/timeline.go:46-56 | Two histories of the same events, in any order and with any repeats, end in the same timeline |
| GlobalFeed.FeedService.EnsureTimeline | internal/service/feed/feed_global.go:122-155 | A non-empty timeline is left alone; an empty one is refilled from the newest rows, or gets the sentinel 0; a failure changes nothing |
| GlobalFeed.FeedService.ParseIDs | internal/service/feed/feed_global.go:56-68 | Exactly the non-zero members, in order |
| GlobalFeed.FeedService.HotPage | internal/service/feed/feed_global.go:51-115 | The page behind a hot-range read: hydrate, fall back to the database, or stitch, with the full-page rule for more; always a page when neither database nor reader fails |
| GlobalFeed.FeedService.Stitch | internal/service/feed/feed_global.go:82-113 | The missing part is read below the last hot item, or below the cursor when nothing hot is left |
| GlobalFeed.FeedService.GlobalFetch | internal/service/feed/feed_global.go:16-116 | The whole branch structure of one fetch, with the timeline it leaves behind; a page whenever neither database nor reader fails |
| GlobalFeed.FeedService.GlobalFeed | internal/service/feed/feed.go:97-145 | An error for exactly the texts that do not decode; otherwise a list whenever neither database nor reader fails, of at most the limit asked for, or twenty if that is not between 1 and 100; next cursor from the last entity |
| GlobalFeed.PageIsServed | internal/service/feed/feed_global.go:16-116 | Whatever the timeline, rows, entities, cursor, clock and limit: a page fails only by a fault of the database or of the reader, and keeps to its limit |
| FeedPages.ListLatestSpec | internal/repository/feed/feed.go:27-42 | A limited listing is strictly descending, below the cursor, and leaves out only older rows |
| FeedPages.DBPageOk | internal/service/feed/feed_global.go:157-170 | The page from the database alone is acceptable |
| FeedPages.DBPageIsExact | internal/service/feed/feed_global.go:157-170 | The page from the database announces more exactly when some row below the cursor is not on it, and is full then |
| FeedPages.HotRange | internal/data/redis.go:83-131 | Over-fetching 2*limit is enough: after the filter the limit+1 newest members below the cursor remain |
| FeedPages.VideoIdsSpec | internal/service/feed/feed_global.go:56-68 | The sentinel is the only member that is dropped |
| FeedPages.GetByIDsSpec | internal/service/feed/feed_global.go:70-74 | The hydrated items are exactly the readable entities, still newest first |
| FeedPages.RowIsHot | internal/service/feed/feed_global.go:31-46 | Between a hot item and the cursor no delivered row is missing from the hot range, unless it is shadowed: missing from the timeline above a video that is there |
| FeedPages.StitchedOk | internal/service/feed/feed_global.go:80-113 | The cold rows continue the hot ones without a gap or an overlap |
| FeedPages.HotPageHasVideo | internal/service/feed/feed_global.go:51-78 | When the hot range goes on, the page holds a video and not only the sentinel |
| FeedPages.PageFailsIff | internal/service/feed/feed_global.go:16-116 | While the database answers, a page fails if and only if the reader fails and the timeline has a video below the cursor for it to read |
| FeedPages.PageIsOk | internal/service/feed/feed_global.go:16-116 | When no row is shadowed, on every branch and with any failing call, a served page is strictly descending, below the cursor, within the limit, and loses no delivered row: each is on the page or reachable through the cursor |
| FeedPages.PagesOkIff | internal/service/feed/feed_global.go:16-170 | All pages, for every valid request, every entity the reader may hold and every failing call, lose no delivered row if and only if no delivered row is missing from the timeline above a video that is in it |
| FeedPages.CoveredIsNotShadowed | internal/service/feed/feed_global.go:121-155 | A timeline with every delivered row from its lowest score upwards shadows none; the converse fails, see UncoveredIsNotShadowed |
| FeedPages.FullPage | internal/service/feed/feed_global.go:110-115 | Without members of deleted videos, a page that announces more is full |
| FeedPages.PageRefinesListing | internal/service/feed/feed_global.go:16-170 | With no event on the way, a page is a prefix of the database listing for the same cursor; empty only when that is; the whole of it without members of deleted videos; and all there is when it carries no cursor |
| FeedCoverage.PublishCovers | internal/repository/video/video.go:115-159 | Committing a video keeps coverage: no row is uncovered by it |
| FeedCoverage.DeliverStaysClear | internal/worker/timeline.go:46-56 | Delivering the next event, with or without its cut, shadows no row |
| FeedCoverage.DeliverCovers | internal/worker/timeline.go:46-56 | Delivering the next event, with or without its cut, keeps coverage |
| FeedRuns.DeleteRowKeeps | internal/repository/video/video.go:198-216 | Deleting a row keeps the world in order and adds no row |
| FeedCoverage.ForgetStaysClear | internal/repository/video/timeline.go:19-28 | Removing the member of a deleted video shadows no row |
| FeedCoverage.ForgetCovers | internal/repository/video/timeline.go:19-28 | Removing the member of a deleted video keeps coverage |
| FeedRuns.RebuildIsClear | internal/service/feed/feed_global.go:132-152 | After a rebuild from the database, or the sentinel of an empty one, no row is shadowed |
| FeedCoverage.RebuildCovers | internal/service/feed/feed_global.go:132-152 | A rebuild, and the sentinel, establish coverage |
| FeedRuns.StepKeepsWalk | internal/service/feed/feed_global.go:15-119 | Every step of the system, repeated and dropped events included, keeps its order and what a page walk has been promised |
| FeedCoverage.RepeatStaysClearIff | internal/worker/timeline.go:46-56 | An event delivered again, with or without its cut, keeps rows from being shadowed if and only if it is cut off again or no later delivered row is missing from the timeline |
| FeedCoverage.DropStaysClearIff | internal/worker/timeline.go:36-40 | A dropped event shadows its row if and only if the row exists, is not in the timeline, and a video below it is |
| FeedCoverage.StepKeepsPagesIff | internal/service/feed/feed_global.go:16-170 | A step leads from a state whose pages lose nothing to another one if and only if it is not such a repeated or dropped event |
| FeedCoverage.RunStaysClearIff | internal/worker/timeline.go:26-56 | In a run of possible steps no row is ever shadowed if and only if none of its repeated or dropped events does so by these conditions |
| FeedCoverage.HarmlessRunIsEnabled | internal/service/feed/feed.go:97-145 | In a run whose steps do no harm a walk may ask for a page at any time |
| FeedCoverage.StepCoversIff | internal/worker/timeline.go:26-56 | A step keeps every delivered row from the lowest score upwards in the timeline if and only if it is not a repeated event below that score of a timeline with room, or uncut, that lacks a later row, nor a dropped one whose row the timeline then lacks |
| FeedCoverage.CoverageAlwaysHolds | internal/service/feed/feed_global.go:121-155 | In every run from a covered state, as long as no repeated or dropped event uncovers a row, every delivered row at or above the lowest score of the timeline is in it, and pages lose nothing |
| FeedRuns.WalkReturnsEveryVideoOnce | internal/service/feed/feed.go:97-145 | A walk interleaved with publishes, deliveries, repeated and dropped deliveries, cuts, deletions, evictions and rebuilds, that asks for pages while no row is shadowed, returns strictly descending videos, and by its end every video delivered before it began and never deleted, exactly once |
| FeedRuns.WalkEnds | internal/service/feed/feed.go:138-145 | No cursor handed out is rejected, every page that does not end the walk adds videos, and the number of videos is bounded by the first one's id |
| FeedRuns.AnswerIsListed | internal/service/feed/feed.go:99-123 | Only a fault of the database or of the reader leaves a walking client without a page, of at most what it asked for, or twenty |
| FeedRuns.AnswerIsFull | internal/service/feed/feed.go:99-101 | A page that announces more has exactly that many videos, when no member of the timeline refers to a deleted one |
| FeedRuns.FaultlessWalkFinishes | internal/service/feed/feed.go:138-145 | A walk whose requests meet no fault receives a video with every request but its last, and is over at the latest with one request more than the id of its first video, whatever happens around it |
| FeedCoverage.OneVideoTakesTwoPages | internal/service/feed/feed_global.go:110-115 | One video and pages of one: that bound is reached, because a full page always announces more |
| FeedRuns.RebuiltIsNewest | internal/service/feed/feed_global.go:132-152 | A rebuilt timeline holds exactly the newest cap rows, scored with their creation times, or the sentinel when there are none |
| FeedRuns.AnswerLeavesTimeline | internal/service/feed/feed_global.go:121-155 | A request leaves the timeline it finds, and rebuilds an empty one |
| FeedRuns.QuietPageRefinesListing | internal/service/feed/feed_global.go:158-170 | With nothing on the way and no row shadowed, a page refines the database listing |
| FeedCoverage.RedeliveryKeepsCoverage | internal/worker/timeline.go:46-56 | An event delivered again, with or without its cut, keeps coverage if and only if it does not land below the lowest score of a timeline that has room or is not cut, while a later delivered row is missing from it |
| FeedCoverage.EvictedIsReached | internal/service/feed/feed_global.go:122-155 | The state of that counterexample is the result of a run from the empty system |
| FeedCoverage.RedeliveryCanSkipAVideo | internal/service/feed/feed_global.go:46-115 | Three videos, an eviction and one redelivery: the next page skips a video and hands out a cursor below it |
| FeedCoverage.DroppedEventCanSkipAVideo | internal/worker/timeline.go:36-40 | Three videos of which the second event is dropped after its attempts: the next page skips that video and hands out a cursor below it |
| FeedCoverage.UncoveredIsNotShadowed | internal/worker/timeline.go:36-40 | The first event after a fresh start is dropped: its row is not covered, yet not shadowed either, and pages still lose nothing |
| Outbox.RetryWithBackOff | internal/worker/consumer.go:54-68 | Stops at the first success, makes all attempts otherwise, and has then waited 2^(calls-1) - 1 seconds |
| Outbox.System.CreateWithOutbox | internal/repository/video/video.go:115-159 | Video and outbox row appear together, or neither does |
| Outbox.System.SendOne | internal/worker/outbox.go:38-71 | Publish, else write the video with its own creation time directly, and delete the row after what the poller takes for a success: also after a publish that the broker released |
| Outbox.System.Poll | internal/worker/outbox.go:27-71 | One poll sends the oldest hundred rows, each as SendOne |
| Outbox.System.Handle | internal/worker/timeline.go:26-56 | Up to three attempts, each inserting the video with its own creation time, after which the message is settled whether or not one succeeded |
| Outbox.SendConserves | internal/worker/outbox.go:36-71 | A send loses its own event if and only if the broker releases it, the row is deleted and no earlier send got it anywhere; it never loses another one |
| Outbox.PollConserves | internal/worker/outbox.go:27-71 | A poll loses exactly the events of such sends, and what was lost stays lost |
| Outbox.HandleConserves | internal/worker/timeline.go:18-43 | Handling loses no event: it is applied, or dropped after exactly three failed attempts |
| Outbox.EventsAreConserved | internal/worker/outbox.go:18-75 | At every moment of every run a committed video is pending, queued, applied or dropped after exactly three attempts, if and only if it is not among those that a released publish lost; and no event exists for a video that was not committed |
| Outbox.DrainedMeansApplied | internal/worker/outbox.go:66-70 | Once outbox and queue are empty, the committed videos are those applied or dropped and, apart from them, those lost |
| Outbox.ReleasedEventIsLost | internal/data/rabbitmq.go:106-114 | One video, one poll, a released message: its event is gone with its row |
| OutboxRuns.TimelineIsApplied | internal/worker/timeline.go:45-56 | In every run each timeline entry is a committed and applied message, scored with the creation time it was committed with, and the timeline lies between the newest cap of the applied messages and all of them: it holds them all while they are no more than cap |
| OutboxRuns.SendOutcome | internal/worker/outbox.go:36-71 | A row goes exactly when its deletion works after a publish without an error or a direct write that was also cut; the message is queued exactly when it arrived |
| OutboxRuns.HandleOutcome | internal/worker/timeline.go:18-43 | A video is applied exactly when one of the attempts made inserted it, dropped exactly when all three failed, and its message leaves the queue exactly when it is settled |
| OutboxRuns.PollMovesHundred | internal/worker/outbox.go:27-71 | A poll whose publishes are accepted moves the oldest hundred rows to the queue in order, and nothing else changes |
| OutboxRuns.BacklogDrains | internal/worker/outbox.go:18-75 | In any run, n such polls leave 100*n rows fewer, and queue and outbox together keep their order |
| Counters.Repository.SetRating | internal/repository/video/rating.go:27-99 | One transaction: the stored vote becomes the new status, counts move with it, and the cache is invalidated exactly when the status changed; a count that would leave its unsigned column aborts it, and nothing changes |
| Counters.Repository.CreateComment | internal/repository/video/comment.go:26-66 | Rejects a comment without video, author, account or content; a comment whose event id has a row changes nothing; otherwise inserts and counts once |
| Counters.Repository.DeleteComment | internal/repository/video/comment.go:68-95 | Deletes and uncounts; a missing comment changes nothing; a count that would leave its unsigned column aborts it |
| Counters.Repository.DeleteVideo | internal/repository/video/video.go:198-216 | Takes the ratings and comments of the video with it and no others |
| Counters.VotesAfter | internal/repository/video/rating.go:74-80 | A rating changes each count of its own video by what that account's vote changed |
| Counters.RatedKeeps | internal/repository/video/rating.go:27-86 | A rating keeps counts equal to rows, for allocated ids, deleted or not |
| Counters.CommentedKeeps | internal/repository/video/comment.go:36-56 | A comment, repeated or not, keeps counts equal to rows |
| Counters.UncommentedKeeps | internal/repository/video/comment.go:68-85 | Deleting a comment, present or not, keeps counts equal to rows |
| Counters.VideoDeletedKeeps | internal/repository/video/video.go:198-216 | The cascade leaves no row of the video and keeps all other counts |
| Counters.NeverBelowZero | internal/repository/video/rating.go:77-80 | In a consistent state no count would fall below zero: no transaction aborts for that and GREATEST has nothing to clamp |
| Counters.CountersAreConserved | internal/repository/video/rating.go:25-99 | After any run with any repeats and in any order, the three counts of every video equal its rows, and the ratings table is the fold of the last vote per video and account |
| CounterRuns.RowsAreFirsts | internal/repository/video/comment.go:36-56 | After any run the comment rows are exactly the first comment of each event id since its last removal, less those removed since by id or with their video, under ids handed out in turn; and the videos are those created and not deleted |
| CounterRuns.OneRowForAnEvent | internal/repository/video/comment.go:37-44 | In every run no two comments share an event id |
| CounterRuns.CommentCountsOnce | internal/repository/video/comment.go:37-56 | After any run a comment whose event id has a row changes nothing, and any other adds one row and one to its video alone |
| Counters.NewVideoMatchesIff | internal/repository/video/video.go:115-122 | A new video's counts match its rows if and only if nothing had been stored for its id; for comments that is so because the service looks the video up first |
| Counters.LateDeleteKeepsIff | internal/repository/video/comment.go:71-83 | If another delete of the same comment commits between the read and the write, counts stay right if and only if the video is gone or has no comment left |
| Counters.DoubleDeletionMiscounts | internal/repository/video/comment.go:71-83 | After two comments and one deletion, the late half of a second deletion of the same comment uncounts the comment that is left |
| Counters.OneCommentIsReached | internal/repository/video/comment.go:26-95 | The state of that counterexample is the result of a run |
| Counters.LateVoteKeepsIff | internal/repository/video/rating.go:30-85 | If another vote of the same account on the same video commits between the read and the write, counts stay right if and only if nothing follows from what was read, the insert fails, the video is gone, or no vote of the kind that was read is left, so that the unsigned count aborts the transaction |
| Counters.DoubleWithdrawalMiscounts | internal/repository/video/rating.go:59-80 | After two likes and one withdrawal, the late half of a second withdrawal uncounts the like that is left |
| Counters.OneLikeIsReached | internal/repository/video/rating.go:27-99 | The state of that counterexample is the result of a run |
| Counters.EarlyLikeIsLost | internal/repository/video/rating.go:41-81 | A like stored for an id not yet handed out is missing from the count of the video that gets the id, and cannot be withdrawn: the count would fall below zero |
| RatingCache.Ratings.WarmupRatingCache | internal/repository/video/rating.go:201-240 | Adds all likes and all dislikes of the account, or the sentinel 0 where there are none; a failed query changes nothing |
| RatingCache.Ratings.EnsureRatingCache | internal/repository/video/rating.go:268-289 | Warms up when either set has no key; an error of a check or of the warm-up changes nothing |
| RatingCache.Ratings.GetRatingCache | internal/repository/video/rating.go:291-331 | Answers in request order, a like before a dislike, unless the question is empty or a call it needs fails |
| RatingCache.Ratings.SetUserRating | internal/service/video/rating.go:52-91 | Rejects impossible arguments unchanged; otherwise cache first, then queue, or table when publishing reports an error; a failed table write is reported but the cache keeps the vote |
| RatingCache.RatedAgreesIff | internal/service/video/rating.go:62-90 | A vote keeps cache and settled table in agreement if and only if it is queued, or stored directly with no vote in flight to overwrite it, or the table was going to say so anyway |
| RatingCache.DeliveryAgrees | internal/worker/rating.go:26-42 | A delivery keeps agreement, also when its settlement is lost and it comes again |
| RatingCache.DeliveryStores | internal/worker/rating.go:26-42 | As many deliveries as votes are in flight empty the queue and leave for every video its last queued vote, or else its old row |
| RatingCache.DropAgreesIff | internal/worker/rating.go:33-40 | Dropping a vote after three failed attempts keeps agreement if and only if a later vote on that video is in flight or the table says so already |
| RatingCache.WarmupAgreesIff | internal/repository/video/rating.go:200-240 | A warm-up keeps agreement if and only if no vote in flight contradicts a stored one; with nothing in flight it always does |
| RatingCache.CacheAnswersAsTable | internal/repository/video/rating.go:291-331 | In agreement and with nothing in flight, every list of videos is answered as the table would, and no video is both liked and disliked |
| RatingCache.RunAgreesIff | internal/service/video/rating.go:52-91 | A run of votes, deliveries, drops, reads, login warm-ups and key expiries, with publishing and table writes free to fail, agrees throughout if and only if each of its steps is harmless by the conditions above and below |
| RatingCache.ExpiryAgreesIff | internal/repository/video/rating.go:237-266 | When one or both keys expire and any votes follow, cache and settled table agree if and only if each forgotten vote was followed by another on its video |
| RatingCache.RefillAgreesIff | internal/repository/video/rating.go:268-289 | The next warm-up repairs an expiry if and only if the stored votes stand and each forgotten vote that no other followed is stored |
| RatingCache.OnlyLoginRefills | internal/repository/video/rating.go:268-289 | As long as both keys exist, no read, delivery, drop or vote on another video changes what is read of a video: only a login or a vote on it does |
| RatingCache.ExpiredLikeIsLost | internal/repository/video/rating.go:243-289 | Both keys expire, one like and one dislike follow: both sets are there again, no read warms up, and a stored like reads as none |
| RatingCache.PublishMayWait | internal/service/video/rating.go:62-77 | A read, login or expiry, or the delivery or drop of an older vote, between the cache write of a vote and its publish, if that is accepted, ends in the same state as after it |
| RatingCache.LoginBetweenAgreesIff | internal/service/video/rating.go:79-83 | A login between the cache write and the table write that follows a failed publish is harmless if and only if the old row is missing or says the same, and the other rows stand |
| RatingCache.FirstWarmupAgrees | internal/repository/video/rating.go:200-240 | The warm-up of an account without a cache establishes agreement |
| RatingCache.WarmupMakesKeys | internal/repository/video/rating.go:227-236 | A warm-up leaves both keys, so that the next read needs no other |
| RatingCache.SentinelIsLiked | internal/repository/video/rating.go:227-236 | A warm-up makes the cache claim that video 0 is liked if and only if the account likes nothing, or the claim was there before |
| RatingCache.UndoneLikeCanReturn | internal/repository/video/rating.go:267-289 | Taking back the only like empties the set, and a read before the table has caught up brings the like back for good |
| RatingCache.FailedLikeStays | internal/service/video/rating.go:79-83 | Publishing and table write fail, the caller is told so, and the cache shows the like |
| RatingCache.DroppedLikeStays | internal/worker/rating.go:37-40 | A queued like that is dropped stays in the cache and never reaches the table |
| RatingCache.OvertakenWithdrawalIsUndone | internal/service/video/rating.go:69-80 | A withdrawal stored directly is overwritten by the older like that was in flight |
| VideoReader.EntityRoundTrip | internal/model/video/video.go:154-184 | Caching loses nothing of a video exactly when it is not soft-deleted |
| VideoReader.OrderByIDs | internal/repository/video/video.go:234-261 | The query's rows in request order, with repeats, without the missing |
| VideoReader.SelectAt | internal/repository/video/video.go:252-258 | What is found for an id stands right after what is found for the ids before it, repeats included |
| VideoReader.Reader.GetByID | internal/service/video/reader.go:57-121 | The live local entry, else the row, through Redis if it answers; unavailable exactly when the database is needed and fails, bad request for 0; what was read is held locally for five seconds, and in Redis if it came from the row |
| VideoReader.Reader.GetByIDs | internal/service/video/reader.go:123-205 | For any list and any faults: what the local cache remembers and else the rows, in request order; no answer exactly when the database fails and some id is left to it; and exactly which entries the two caches gain |
| VideoReader.Reader.ReadLocal | internal/service/video/reader.go:130-140 | Splits the list into what is found locally and what is missed |
| VideoReader.Reader.ReadRedis | internal/service/video/reader.go:142-175 | What decodes is answered and kept locally, everything else is passed on |
| VideoReader.Reader.ReadRows | internal/service/video/reader.go:176-196 | Completes the answer from the database and refills both caches, keeping them coherent |
| VideoReader.BatchEqualsQuery | internal/service/video/reader.go:123-205 | When the local cache agrees with the database, a batch read is exactly the batch query |
| VideoReader.RefillKeepsFresh | internal/service/video/reader.go:183-193 | A local cache that agrees with the database still does after what a read may leave in it |
| Staleness.BackfillIsQueryAndLand | internal/service/video/reader.go:177-194 | A query that lands at once is the backfill of the reader |
| Staleness.AnswersAreRecent | internal/service/video/reader.go:20-23 | In every timed run in which no write overtakes a read, every answer equals the database row of some moment at most five seconds ago, an existing video is never reported missing, and Redis agrees with the database |
| Staleness.LandingIsSafeIff | internal/service/video/reader.go:94-107 | After any such run, storing what a read captured keeps Redis in agreement and the answers recent, however long one waits, if and only if the last write of the video since the capture stored the same, or it goes into the local cache alone and the write came in this very millisecond |
| Staleness.AnswersAreBounded | internal/service/video/reader.go:20-23 | In every run, overtaken reads included, an answer is a row of the last hour and five seconds plus twice the time a read may take |
| Staleness.OvertakenReadIsStale | internal/service/video/reader.go:183-193 | A run whose answer was replaced an hour and five seconds ago although every read took no time: five seconds are exceeded, and the general bound is reached |
| SseHub.SSEHub.Subscribe | internal/worker/ssehub.go:39-50 | The new channel replaces and closes the old one |
| SseHub.SSEHub.UnSubscribe | internal/worker/ssehub.go:52-59 | Only the connection still registered is removed and closed |
| SseHub.SSEHub.Push | internal/worker/ssehub.go:62-74 | Offered to the registered channel, dropped when the buffer is full |
| SseHub.SSEHub.Receive | internal/worker/ssehub.go:135-138 | A buffered value first, then the closed signal |
| SseHub.HubIsSafe | internal/worker/ssehub.go:39-74 | In every interleaving: no double close, no send on a closed channel, a channel is open exactly while registered, and what was received and waits is, in order, what was pushed while it was registered less what found the buffer full |
| SseHub.RegisteredIsLast | internal/worker/ssehub.go:39-59 | After any run the registered channel of a user is the one of its last connection, until that connection leaves |
| SseHub.ChannelIsQueue | internal/worker/ssehub.go:39-138 | In every interleaving each channel is a queue of at most twenty of the pushes made to its user while it was registered, and its owner has received what it took from it, told from the steps alone |
| SseHub.DrainedIsDelivered | internal/worker/ssehub.go:135-138 | A connection that receives until nothing waits has received every push that found room, in order, even after its channel was closed |
| SseHub.DroppedOnlyWhenFull | internal/worker/ssehub.go:70-73 | A push that found fewer than twenty waiting is delivered or waiting, at its place in the order |
| RateLimit.Limiter.IncrementWithExpire | internal/data/redis.go:304-314 | One atomic increment; the window opens with the first hit and a zero time to live deletes the key |
| RateLimit.Limiter.Limit | internal/middleware/ratelimit/ratelimit.go:16-45 | Admitted if and only if the count is within the maximum; without cache, subject or answer the request passes uncounted |
| RateLimit.CounterCountsWindow | internal/data/redis.go:304-314 | The counter is the number of arrivals since the request that opened its window |
| RateLimit.WindowAdmitsMin | internal/middleware/ratelimit/ratelimit.go:31-43 | A window admits exactly the smaller of its arrivals and the maximum |
| RateLimit.WindowPassesMin | internal/middleware/ratelimit/ratelimit.go:32-43 | For a configured window of whole seconds, of the requests within it of the one that opened it exactly the first max pass |
| RateLimit.LaterRequestOpens | internal/data/redis.go:304-314 | For such a window and a positive maximum, the first request more than the window after its opener passes and opens the next one |
| RateLimit.QuietRequestPasses | internal/data/redis.go:304-314 | For any window: a request with none before it for that long passes |
| RateLimit.NextWindowIsLater | internal/data/redis.go:306-311 | Windows open more than their length apart |
| RateLimit.AtMostTwoWindows | internal/data/redis.go:306-311 | A stretch of requests at most a millisecond longer than the time to live admits at most twice the maximum |
| RateLimit.WholeSecondsAreBounded | internal/middleware/ratelimit/ratelimit.go:16-45 | For windows of whole seconds, and from one second on for a maximum of one, any interval as long as the window admits at most twice the maximum, wherever it starts |
| RateLimit.BoundedIff | internal/data/redis.go:312 | That bound holds for every request sequence if and only if the maximum is zero, or the window has at least a second and at most one millisecond beyond whole seconds or a maximum of one |
| RateLimit.LeftoverMillisAreUnbounded | internal/data/redis.go:312 | A window with leftover milliseconds: a request sequence with 2*max+1 admissions within the configured length |
| RateLimit.SubSecondWindowNeverLimits | internal/data/redis.go:312 | A window shorter than a second limits nothing |
| Popularity.HotList.UpdatePopularity | internal/repository/video/popularity.go:21-27 | Increments the bucket of the current minute and renews its two hours, each of which may fail on its own |
| Popularity.HotList.ZUnionStore | internal/data/redis.go:210-213 | The destination becomes the summed union, and disappears when that is empty |
| Popularity.HotList.Rebuild | internal/service/feed/feed_popularity.go:37-46 | The ranking of a minute from the sixty buckets before it, its errors dropped |
| Popularity.HotList.ListByPopularity | internal/service/feed/feed_popularity.go:19-90 | The live ranking the client asked for, else a new one of the current minute; one member past the page tells whether there is more |
| HotListRuns.MergeIsRanking | internal/data/redis.go:210-213 | Merging the sums of two adjacent windows gives the sums of both |
| HotListRuns.UpdateKeeps | internal/repository/video/popularity.go:21-27 | An update keeps every bucket and every ranking exact, whichever of its commands fails |
| HotListRuns.NeededBucketIsLive | internal/repository/video/popularity.go:25 | No bucket that a ranking needs has expired |
| HotListRuns.UnionIsRanking | internal/service/feed/feed_popularity.go:37-44 | The union of the buckets is the ranking of the whole window |
| HotListRuns.ListedIsExact | internal/service/feed/feed_popularity.go:19-90 | A request fails exactly when a lookup, range or reader it needs does; every other answer is a page of the exact ranking of the minute it names, except that a failed union with nothing to fall back on shows, unreported, an empty ranking |
| HotListRuns.SnapshotLives | internal/service/feed/feed_popularity.go:45 | A ranking just built lives for exactly two minutes |
| HotListRuns.BucketLives | internal/repository/video/popularity.go:21-27 | A bucket whose time to live was set lives for exactly two hours |
| HotListRuns.AsOfSelectsTheSame | internal/service/feed/feed_popularity.go:23-35 | The as_of of an answer selects the same ranking for as long as it lives |
| HotListRuns.PageIsSlice | internal/service/feed/feed_popularity.go:48-58 | From a non-negative offset the page is that stretch of the ranking, and HasMore tells exactly whether anything follows |
| HotListRuns.RankingsAreExact | internal/service/feed/feed_popularity.go:37-46 | In every run, with any commands failing, each bucket and ranking is the sum of the changes logged in its minutes, and the pages a client followed are a prefix of its ranking |
| HotListRuns.FinishedWalkIsWholeRanking | internal/service/feed/feed_popularity.go:84-89 | When HasMore turns false the client has received the whole ranking, no video twice and those that gained more first, each video scored with the sum of its changes in minutes m-60 to m-1 |
| HotListRuns.FaultlessWalkFinishes | internal/service/feed/feed_popularity.go:48-58 | Pages that meet no fault and ask for at least one video end the walk after at most as many of them as the ranking has videos, in every run |
| HotListRuns.RebuiltRankingIsTheSame | internal/service/feed/feed_popularity.go:38-41 | Building the ranking again in the same minute gives the same ranking, whatever happened in between |
| Sessions.UserService.Login | internal/service/user/user.go:129-172 | Replaces the account's tokens and removes the key of the old refresh token; a failure changes nothing |
| Sessions.UserService.Refresh | internal/service/user/user.go:175-216 | Rejects an unknown token; otherwise removes the old keys, then stores the new pair, or fails with the keys gone |
| Sessions.UserService.Logout | internal/service/user/user.go:218-240 | Rejects an unknown token; otherwise removes the three keys |
| Sessions.CallKeepsInverse | internal/service/user/user.go:142-153 | Every call keeps the account keys and the token keys inverse to each other |
| Sessions.LiveTokenIsTheLastIssued | internal/service/user/user.go:175-202 | After any run a refresh token speaks for an account if and only if it is the last one the account was given and its session did not end since; the access key is the last one given unless the account logged out |
| Sessions.CallIssuesIff | internal/service/user/user.go:129-216 | After any run a call hands out tokens if and only if it is a login with good credentials or a refresh of a live token by a user who exists, and signing works; they are the ones signed and drawn for it, and belong to that account from then on |
| Sessions.AnswersAreDetermined | internal/service/user/user.go:129-240 | After any run wrong credentials and dead tokens are refused, a live token logs out, and every other answer is a failure of the database or of signing |
| Sessions.LogoutLeavesNothing | internal/service/user/user.go:218-240 | After a logout none of the three keys is left |
| Sessions.CallsRetire | internal/service/user/user.go:187-190 | A live token stops being accepted if and only if it is refreshed, logged out, or its account logs in again |
| Sessions.RetiredForEver | internal/service/user/user.go:218-230 | A token that is no longer accepted is never accepted again |

## Left out

- HTTP handlers, routing, configuration, JWT, bcrypt, MinIO, SQL and AMQP clients: queries are functions of the modelled tables, tokens are opaque values.
- View building and status stamping: the page theorems are about the entities a fetch returns, from which the cursors are made.
- Following feed: its backfill and untrimmed fan-out give the lowest score another meaning; only the success flag of the fan-out enters the event handler.
- Notification storage and the unread counter, liked-videos paging, upload, tags, social counts: mostly single queries.
- Concurrency inside one call: a feed request, a rebuild, a read, a token call, a whole poll, a vote (cache write, publish, table write) and a database transaction are one step each, except where `LateDeleteKeepsIff`, `LateVoteKeepsIff`, `Staleness`, `PublishMayWait` and `LoginBetweenAgreesIff` take one apart; singleflight and the unused Redis lock disappear with that, and so do two refreshes of the same token at once.
- VideoReader.Reader.GetByID: the second look into Redis inside singleflight is merged with the first; JSON appears only as bytes that decode to an entity or do not.
- FeedPages.GetByIDsSpec: the reader is a map from ids to entities that may still hold recently deleted rows; `VideoReader` says how such a map comes about.
- FeedRuns.WalkReturnsEveryVideoOnce: first deliveries are in publish order; pages are asked for only while no row is shadowed, which `FeedCoverage.RunStaysClearIff` traces to the repeated and dropped events.
- FeedCoverage.CoverageAlwaysHolds: creation times are whole milliseconds, as the cursor and the score carry them; finer database times are not modelled.
- GlobalFeed.FeedService.ParseIDs: members are ids, so the branch for a member that is not a number has no counterpart.
- Outbox.System.Poll: a publish has one of five outcomes (no publisher, error, error although it arrived, arrived, released or rejected without an error); the broker and its client are not part of this model.
- Outbox.System.Handle: the retry loop is written into the handler; undecodable messages, which are settled and ignored, and the waiting time (see `RetryWithBackOff`) are not part of it.
- RatingCache.RunAgreesIff: times are not modelled, so a key may expire at any step, also one that a vote brought back and that has no time to live; failing Redis commands of a vote or a warm-up are not modelled; between the cache write and the table write of a vote only a login is.
- SseHub.SSEHub.Receive: the keep-alive ticker and the count of failed writes, which only end a connection, are not modelled.
- RateLimit.WholeSecondsAreBounded: requests that pass because Redis fails are not counted.
- HotListRuns.PageIsSlice: a negative offset, which Redis counts from the end, is not a page of a walk; the service never hands one out.
- Popularity.HotList.UpdatePopularity: scores are integers, as every change in the source is; float64 rounding above 2^53 and an increment that is applied although it reports an error are not modelled.
- Popularity.HotList.ListByPopularity: ends with the ids it asks the reader for; one clock reading covers the request.
- Sessions.UserService.Login: credentials and signing are outcomes; the copy of the refresh token in the database, written in the background and never read back, and the rating warm-up after a login are not modelled.
