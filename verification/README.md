# Saugra WAF: the decision core, verified

A Dafny model of the stateful decision core of the Saugra web application firewall, with the calendar
arithmetic it logs with. Everything here is deterministic once the clock readings, the ids of new
objects and the replies of other systems are inputs. `dafny verify dfyconfig.toml` checks all of it.

Code that updates state step by step is a class whose methods are proved equal to functions of the old
state. The properties are lemmas about those functions, mostly over whole runs: every request, every
interleaving, every reachable state.

| component | files | main results |
|---|---|---|
| Campaign correlation | `EventWindow`, `ActiveCampaigns`, `CampaignPolicies`, `CampaignFilters`, `Campaign`, `CampaignCounts` | each match counts exactly the requests of the whole history that concern its policy; how long a campaign keeps its identity |
| Redis lock around it | `CampaignLock`, `RedisCampaign` | concurrent updates serialise, and work as the in-memory store; exactly what a late write undoes |
| Unknown-threat learner | `UnknownThreats`, `ThreatVerdicts`, `ThreatLearning` | every verdict from the respects in which a request deviates; baselines are exact tallies; what a block proves about the past |
| Rate limiter | `RealArithmetic`, `TokenBucket`, `RateLimit` | exactly what a policy allows is admitted, no more and no less; rejected calls are invisible; the Redis store answers as the memory store |
| Timestamps | `Calendar`, `Text`, `Timestamp`, `TimestampFields` | the day count is a bijection with real dates; printing and reading round-trip; offsets shift the clock by what they say |
| Event log | `EventLog` | rotation loses only the oldest events, and comes only when a file is full |
| Console outbox | `Outbox` | events are conserved over every interleaving of appends and deliveries; the outbox drains in rounds |
| Managed policy | `ManagedPolicy`, `PolicyTerms` | what is enforced is the last verified policy, and always valid; which responses are accepted, in their own terms |
| Bot and behavior scoring | `ScoreWindow`, `Bot`, `Behavior`, `ScoreVerdicts` | every answer from what the window reaches; blocks hold and do not feed themselves; the decay window decides nothing |
| Decision | `Decision`, `DecisionCounts` | whom the decision blocks, from how many matches there are of which severity and level; monitor-only findings never block |
| Request handling | `Handler` | over whole runs of all stores together, a stricter server mode never decides milder |
| Route shapes | `RouteShape` | two implementations agree |

## Where the code does less than it is meant to

Each of these is a lemma with the exact condition under which the promise holds, or a run in which it
fails.

- Configuration validation accepts longer duration units than the campaign evaluator parses, so a
  validated window can outlive the retention (`Campaign.WindowOutlivesRetention`).
- A campaign state written after its lease ended can undo finished updates: exactly those written since
  its own read (`CampaignLock.FirstLoss`, `CampaignLock.LateStoreLosesUpdate`).
- The rate limiter reads its clock before it takes its lock, so a late reading is refilled twice and more
  is admitted than the time allows (`RateLimit.RewoundClockPaysTwice`); the bound for T seconds needs
  exactly that a key's readings run forwards for at most T (`RateLimit.BoundNeedsForwardTime`).
- A fixed offset with inner signs, such as `++5:30`, passes validation but prints timestamps that
  cannot be read back (`Timestamp.RoundTrip`).
- `days_from_civil` accepts days such as 31 February (`Calendar.DaysAreInvertedOnRealDates`).
- Two records that share a request id can lose the second unsent, or block the outbox for good
  (`Outbox.SecondRecordIsLost`, `Outbox.SharedBatchStalls`).
- The policy key, revision and digest that are reported follow every download, also of a policy that
  is then rejected; what is enforced does not (`ManagedPolicy.ReportedIdentityFollowsDownloads`).
- A campaign path prefix is compared with the shape of the route. It covers the paths below it exactly if
  it consists of slashes only or is written as a shape, so one with an identifier segment covers none; and
  its own path exactly if it consists of slashes only or is written as a shape that no slash ends
  (`CampaignFilters.PrefixCoversItsPaths`).
- Configuration validation trims a campaign scope and the evaluator does not: an accepted scope with spaces
  around it counts over all clients (`CampaignFilters.PaddedScopeIsGlobal`).
- Two policies of different kinds can share a campaign if a kind holds a colon, which validation accepts
  (`CampaignCounts.KeyIsKindAndScope`, `CampaignCounts.ColonsCollide`).
- The decay window of behavior scoring changes no outcome of any run in which no client's clock goes back
  (`Behavior.DecayChangesNothing`); when one does, it can (`Behavior.DecayShowsOnRewind`).
- A temporary block no longer than the score window renews itself (`Bot.ShortBlockRenewsItself`).

Three further lemmas show no fault but that results need what configuration validation demands: a positive
threshold (`Decision.ZeroThresholdLetsMonitorBlock`), a required observation
(`UnknownThreats.UnreadyGateProvesNothing`), and for the retry-after promise a policy that refills
(`RateLimit.RetryAfterIsExact`).

## Model

| member | source | states |
|---|---|---|
| EventWindow.RecordingKeepsWindow | src/campaign/eval.rs:61-75 | recording an event keeps the window the longest suffix of history with no event past the retention and at most `max_events` events |
| EventWindow.WindowSeesHistory | src/campaign/eval.rs:77-86 | with window <= retention, the policies see every event of the window exactly when history holds at most `max_events` of them there |
| ActiveCampaigns.DatedThenPruned | src/campaign/eval.rs:101-127 | dating the matched campaigns and then pruning leaves exactly the matched and the unexpired ones, known ones under their identity |
| ActiveCampaigns.CampaignIsStable | src/campaign/eval.rs:101-127 | a campaign stays active exactly until a recorded call that does not match it comes more than the retention after it was last seen, and keeps its id and first sighting until then |
| ActiveCampaigns.FirstNotAfterLast | src/campaign/eval.rs:105-110 | in every run with a steady clock, first_seen_at <= last_seen_at <= the last call |
| ActiveCampaigns.SuccessiveMatchesAgree | src/campaign/eval.rs:101-127 | two successive matches of a key have one identity exactly when every recorded call between them came within the retention of the first |
| CampaignPolicies.ScopeIsSameValue | src/campaign/eval.rs:162-182 | the events in scope are exactly those with the scope value that names the campaign |
| CampaignFilters.PrefixCovers | src/campaign/eval.rs:190-196 | for every prefix and request path, the prefix matches the path's shape exactly if it covers the path segment by segment |
| CampaignFilters.PrefixCoversItsPaths | src/campaign/eval.rs:190-196 | a path prefix covers the paths below it exactly if it is slashes only or written as a shape, and its own path exactly if it is slashes only or written as a shape that no slash ends |
| CampaignFilters.PaddedScopeIsGlobal | src/config/campaign_bot.rs:353-360 | an accepted scope selects what its text says exactly if it has no spaces around it or says "global" |
| CampaignPolicies.ForeignEventCountsNothing | src/campaign/eval.rs:81-86 | an event that shares no category with those of the policy changes nothing of the evidence, wherever it lies in the history |
| CampaignPolicies.StagesAreNamed | src/campaign/eval.rs:207-224 | the stages reported are, by name and in order, exactly those that share a category with some piece of evidence |
| Campaign.MemoryCampaignStore.Evaluate | src/campaign/eval.rs:44-149 | updates the events and campaigns in place to the specified state, with the specified outcome |
| Campaign.EventsAreHistorySuffix | src/campaign/eval.rs:59-75 | throughout every run the stored events are the longest suffix of everything recorded that retention and capacity allow |
| Campaign.CountsFullHistory | src/campaign/eval.rs:77-148 | a recorded call has the outcome that counting over the full history gives, as long as the window never holds more than `max_events` events, and the window is complete exactly then |
| Campaign.CorrelationKeepsIdentity | src/campaign/eval.rs:101-122 | one pass over the policies dates exactly the campaigns of those that suffice, keeps known identities and reports the stored ones |
| Campaign.MatchesReportIdentity | src/campaign/eval.rs:111-133 | sorting loses and adds no match; each reports what its policy finds under the stored identity |
| Campaign.MatchesAreDated | src/campaign/eval.rs:105-123 | in every run with a steady clock, each match of each outcome has first_seen_at <= last_seen_at, and last_seen_at is the time of its own call |
| Campaign.SuccessiveMatchesReportOneCampaign | src/campaign/eval.rs:101-127 | over whole runs, successive calls that match one key report the same id and first_seen_at exactly when every recorded call between them came within the retention, in particular when they are at most the retention apart |
| Campaign.WindowOutlivesRetention | src/campaign/eval.rs:406-418 | exactly which validated pairs of durations the evaluator reads with window > retention |
| Campaign.DurationsAreTime | src/campaign/eval.rs:406-418 | what the evaluator reads durations as, unit by unit, and that it reads no other unit |
| Campaign.SpellingsAgree | src/config/helpers.rs:21-45 | validation reads the short units alike and each long spelling as its unit |
| CampaignCounts.EvidenceIsCounted | src/campaign/eval.rs:81-91 | event, client, session, route and stage counts are cardinalities over the correlated requests in the window that are in scope, share a category with the policy, lie under a prefix and share a category with a stage, each as far as the policy names any |
| CampaignCounts.OutcomeCountsHistory | src/campaign/eval.rs:51-147 | as long as no more requests are in the window than `max_events`, the outcome reports one match for each policy whose minimums are reached by such requests of the whole history, with their counts, and asks for monitoring exactly if there is one |
| CampaignCounts.OthersChangeNothing | src/campaign/eval.rs:51-57 | a request that is not correlated (correlation or server off, or no category) changes nothing and reports nothing |
| CampaignCounts.ForeignRequestsDoNotCount | src/campaign/eval.rs:185-189 | a request that shares no category with those of the policy never counts for it |
| CampaignCounts.RankingIsStable | src/campaign/eval.rs:128-133 | sorting puts higher scores first, then kinds in byte order, and leaves ties as they were |
| CampaignCounts.OutcomesAreRanked | src/campaign/eval.rs:128-133 | the matches of every outcome of every run are in that order |
| CampaignCounts.KeyIsKindAndScope | src/campaign/eval.rs:101-104 | requests share a campaign exactly if policy kind and scope value agree, as long as no kind holds a colon |
| CampaignCounts.ColonsCollide | src/campaign/eval.rs:101-104 | two policies of different kinds that count for different clients under one key |
| CampaignLock.GivesUpAtHundred | src/campaign/eval.rs:369-389 | in every run an update takes the first lease it finds free, and has given up exactly if it asked 100 times while another lease was out |
| CampaignLock.OnlyLeasersHold | src/campaign/eval.rs:369-404 | in every run the lease the server holds was granted to an update that has not released it, and runs out five seconds after it was asked for |
| CampaignLock.FailedNeverWrites | src/campaign/mod.rs:159-195 | an update that fails under its lease writes nothing afterwards; it only releases |
| CampaignLock.LeaseIsSafe | src/campaign/eval.rs:369-404 | in every run a lease ends only by its time or by the release of its own token, and at most one update is inside its lease |
| CampaignLock.StandingIsSequential | src/campaign/mod.rs:168-195 | for every run, in time or not: the writes that still stand, in the order of the steps, give the server its state and each of them its outcome, as if done one after the other |
| CampaignLock.WriteRestoresItsRead | src/campaign/mod.rs:169-189 | for every run: a write puts the history back to what its update read; it undoes everything made since, and no other write exactly when there was none since |
| CampaignLock.NothingIsLostIfUndisturbed | src/campaign/mod.rs:169-189 | for every run: all writes stand exactly when each came with no other write since its read |
| CampaignLock.FirstLoss | src/campaign/mod.rs:169-189 | up to the first loss a write undoes exactly the writes made since its own read |
| CampaignLock.ExpiriesStand | src/campaign/mod.rs:181-189 | among undisturbed writes an expiry of the state key shows exactly when no update read before it and wrote after it |
| CampaignLock.TurnsDoNotOverlap | src/campaign/eval.rs:369-404 | of two writes inside their leases, the later one's update acquired the lock after the earlier write |
| CampaignLock.UpdatesSerialise | src/campaign/mod.rs:159-195 | if writes happen inside their leases, then for every interleaving all writes, and the expiries no update masks, in the order of the steps and of acquisition, give the server its state and every update its outcome |
| CampaignLock.LateStoreLosesUpdate | src/campaign/mod.rs:182-193 | a run in which a write after its lease, disturbed by another, undoes a finished update |
| CampaignLock.RevivedWriteIsUndone | src/campaign/mod.rs:169-193 | a run in which, after a first loss, a late write brings an undone write back and another undoes it, although it was made before that one's read |
| RedisCampaign.StretchIsRun | src/campaign/mod.rs:74-84 | a stretch of the serial history without an expiry is a run of the in-memory store with the outcomes the processes got |
| RedisCampaign.RedisWorksAsMemory | src/campaign/mod.rs:157-196 | processes that write inside their leases work as one in-memory store between expiries of the state key, with ordered clock readings if theirs are, so all results about its runs apply |
| RedisCampaign.WithoutExpiryOneStore | src/campaign/mod.rs:157-196 | while the state key does not expire they are one run of one in-memory store, of all writes in their order, from empty to what the server holds |
| RedisCampaign.RedisCampaignStore.Acquire | src/campaign/eval.rs:369-390 | fails exactly when another lease outlasts the 99 pauses between 100 attempts |
| RedisCampaign.RedisCampaignStore.Evaluate | src/campaign/mod.rs:159-195 | an undisturbed update is one evaluation of the stored state and frees the lock; without the lock nothing is written |
| UnknownThreats.UnknownThreatStore.Evaluate | src/unknown_threats/eval.rs:139-337 | prunes, allocates, judges and learns in place as specified |
| UnknownThreats.UnknownThreatStore.LearnInPlace | src/unknown_threats/eval.rs:339-398 | learning changes one route, feature by feature, as specified |
| UnknownThreats.UnknownThreatStore.PruneStaleRoutes | src/unknown_threats/eval.rs:430-449 | dates undated routes, removes exactly the stale ones and counts them |
| UnknownThreats.ObserveInPlace | src/unknown_threats/eval.rs:400-420 | counts a value, promotes it at the promotion count and respects both capacities |
| UnknownThreats.ObserveBodyInPlace | src/unknown_threats/eval.rs:377-397 | counts a size bucket, raises the learned maximum at the promotion count and drops the buckets it covers |
| UnknownThreats.BodySizeIsBucket | src/unknown_threats/eval.rs:422-428 | a bucket is 0, a power of two or the largest size, and no smaller than the body |
| UnknownThreats.ObserveIsExact | src/unknown_threats/eval.rs:400-420 | while there is room, the active values are exactly those observed `promotion_observations` times, and pending counts are exact |
| UnknownThreats.EvaluationKeepsBounds | src/unknown_threats/eval.rs:180-193 | every evaluation keeps all capacities, disjointness and count ranges |
| UnknownThreats.LearnedSizeNeverFalls | src/unknown_threats/eval.rs:377-397 | no evaluation lowers the learned body size of a route it keeps |
| UnknownThreats.EveryRunIsBounded | src/unknown_threats/eval.rs:339-449 | in every run, active sets stay within their maxima, pending maps within twice that, active and pending are disjoint, pending counts lie in [1, promotion), at most 32 buckets are pending, all above the learned size, and routes within `max_routes` |
| UnknownThreats.CreatorIsAbsorbed | src/unknown_threats/eval.rs:182-201 | a new entry absorbs the request that made it exactly when at least one observation is required |
| UnknownThreats.EntriesAreExplained | src/unknown_threats/eval.rs:296-306 | in every run, each entry is accounted for by the log of all signal-free learning requests since the one that created it, after any prune |
| UnknownThreats.BlockIsEarned | src/unknown_threats/eval.rs:263-294 | a block implies that the request really deviates in at least the required number of ways from an entry that has absorbed, since its creation and with no prune since, the required number of learning requests, the first at least the required age ago, and that every known method, content type and query name was carried by at least `promotion_observations` of them |
| UnknownThreats.UnreadyGateProvesNothing | src/unknown_threats/eval.rs:430-442 | on settings that validation refuses, with no observation required, a route that absorbed nothing passes the age gate and blocks |
| UnknownThreats.ModeOnlyRaisesAction | src/unknown_threats/eval.rs:204-294 | of what the learner does the server mode changes the action alone, which a stricter mode never lowers |
| ThreatVerdicts.VerdictsAreExact | src/unknown_threats/eval.rs:147-294 | every outcome of every run, in full: the score is the sum of the configured points of the respects in which the request deviates from the entry found, it is blocked exactly if every gate holds, monitored exactly if not and the score reaches the monitor threshold |
| ThreatVerdicts.StepsKeepAndLearn | src/unknown_threats/eval.rs:180-306 | every step of every run keeps exactly the entries that are not stale, creates at most the one judged, and counts the request there exactly if it may be learned and raised no signal |
| ThreatLearning.BaselinesAreTallies | src/unknown_threats/eval.rs:339-428 | in every run each baseline is an exact tally of the requests it absorbed: with room to spare its known methods, content types and query names are exactly those that `promotion_observations` of them carried, and its body size is the largest bucket that as many had |
| TokenBucket.DriveIsBounded | src/rate_limit.rs:86-101 | admissions never exceed the first level plus what forward time refills, whatever the clock does |
| TokenBucket.RejectedCallsAreInvisible | src/rate_limit.rs:86-100 | for one bucket, removing any rejected calls leaves all other answers unchanged |
| TokenBucket.RejectedRequestsAreInvisible | src/rate_limit.rs:66-101 | in any run over all keys, removing any rejected calls leaves all other answers unchanged |
| TokenBucket.LevelThroughRejections | src/rate_limit.rs:86-93 | through rejections a bucket only refills, up to its capacity |
| TokenBucket.KeysAreIndependent | src/rate_limit.rs:79-84 | each key is answered as though no other key existed |
| TokenBucket.TokensStayInRange | src/rate_limit.rs:86-91 | in every run the tokens of a key stay within [0, capacity] |
| TokenBucket.SegmentBound | src/rate_limit.rs:72-101 | within any stretch of any run one key is admitted at most a full bucket plus what it gains in any time that its clock readings do not exceed while they run forwards, in order or not and whenever other keys come |
| TokenBucket.RepetitionSpendsAll | src/rate_limit.rs:86-101 | where no refill is lost to the capacity, repeated checks are admitted all but one token of the first level and the forward refill |
| RateLimit.AdmissionBound | src/rate_limit.rs:72-101 | at most rpm + burst + T * rpm / 60 requests of a key are admitted in any stretch of any run over which its clock readings run forwards for at most T seconds, whatever other keys do |
| RateLimit.AdmissionBoundInOrder | src/rate_limit.rs:72-101 | with clock readings in order, T may be the seconds from the first request of the key to its last |
| RateLimit.BoundNeedsForwardTime | src/rate_limit.rs:72-101 | for readings in any order, the bound for T holds of all linear meters and any repetition exactly if the readings run forwards for at most T |
| RateLimit.BurstIsAdmitted | src/rate_limit.rs:72-101 | in any run, of the requests of a new or idle key at one clock reading exactly the first rpm + burst are admitted |
| RateLimit.AllowanceIsSpent | src/rate_limit.rs:72-101 | of readings presented often enough, none of whose refills is lost to the capacity, exactly the integer part of rpm + burst + T * rpm / 60 is admitted |
| RateLimit.RewoundClockPaysTwice | src/rate_limit.rs:72-88 | a run from the empty store in which a late clock reading has three requests admitted in a minute that allows two |
| RateLimit.RetryAfterIsExact | src/rate_limit.rs:95-100 | retry-after seconds after a rejection a request is admitted exactly if the policy refills; a second sooner it is rejected |
| RateLimit.RetryAfterHoldsInRuns | src/rate_limit.rs:66-101 | the same for one key in any run over all keys |
| RateLimit.RetryAfterBrackets | src/rate_limit.rs:171-177 | after the reported seconds there is at least one token, and less than one second's refill more |
| RateLimit.MemoryRateLimitStore.Check | src/rate_limit.rs:66-101 | serves one request of one key and changes no other bucket |
| RateLimit.TtlFills | src/rate_limit.rs:137-139 | a bucket idle for its time to live has refilled completely |
| RateLimit.RedisRefinesMemory | src/rate_limit.rs:179-210 | on the same millisecond times, whenever expired keys are dropped, the script gives the answers and retry times of the memory store |
| RateLimit.RedisRateLimitStore.Check | src/rate_limit.rs:129-168 | runs the script on the bucket of one key, which may have expired, and changes no other |
| RateLimit.RedisStoreRefinesMemory | src/rate_limit.rs:129-210 | in every run over all keys, whenever expired keys are dropped, the Redis store gives the answers of the memory store on the same millisecond times |
| Calendar.CivilVersionsAgree | src/event_store/mod.rs:237-255 | the truncating and the Euclidean version compute the same date for every day number |
| Calendar.CivilIsInverted | src/security_summary/date.rs:110-124 | every day number is a real Gregorian date, and converting it back gives the number |
| Calendar.DaysAreInvertedOnRealDates | src/security_summary/date.rs:65-78 | the conversion from a date accepts months 1-12 and days 1-31, and is undone exactly on real dates |
| Calendar.DaysAreConsecutive | src/security_summary/date.rs:110-124 | consecutive day numbers are consecutive calendar dates |
| Calendar.EpochIsDayZero | src/event_store/mod.rs:237-255 | day 0 is 1 January 1970 |
| Timestamp.LocalWraps | src/event_store/mod.rs:168 | the printed second is the second shifted by the offset of the zone, wrapped to 64 bits |
| Timestamp.RoundTrip | src/event_store/mod.rs:163-235 | a printed timestamp reads back as the same second exactly when the zone has plain digits and the local year fits 32 bits, local times before 1970 included |
| Timestamp.PrintedReadsBack | src/security_summary/date.rs:19-43 | what reading gives for any printed date, time and zone |
| Timestamp.OffsetReadsBack | src/security_summary/date.rs:45-63 | the suffix of a fixed offset is split off and read exactly if its numbers carry no sign of their own |
| Timestamp.ZoneReadsBack | src/event_store/mod.rs:187-235 | for every zone name, what its suffix reads back as |
| TimestampFields.OffsetIsWorth | src/event_store/mod.rs:213-235 | an offset of two plain numbers is accepted exactly up to 23:59 and is worth that many hours and minutes |
| TimestampFields.ZoneStandsFor | src/event_store/mod.rs:187-211 | what each zone name stands for, and that any other stands for UTC |
| TimestampFields.PrintedFields | src/event_store/mod.rs:163-185 | a printed timestamp shows the real date and the time of day of its local second, and the suffix of its zone |
| TimestampFields.OffsetShiftsPrinting | src/event_store/mod.rs:163-235 | printed in a fixed offset, a second shows what UTC shows for the second so much later |
| TimestampFields.OffsetShiftsReading | src/security_summary/date.rs:19-63 | whatever reads as a second with a Z behind it reads as so much earlier with a fixed offset behind it |
| Text.TrimmedEnds | src/event_store/mod.rs:188 | trimming takes off spaces, at both ends, and all of them |
| Text.PaddedIsExact | src/event_store/mod.rs:177-180 | a printed field is its sign, if negative, and digits of its value, filled up with zeros to its width and no further |
| Text.ParsedNumbers | src/security_summary/date.rs:23-25 | digits are read as their value, after a sign the type allows, exactly if it is in the range of i32 or u32 |
| Text.OnlyNumbersParse | src/security_summary/date.rs:23-25 | nothing but digits after at most one sign is read as a number |
| RouteShape.RouteShapesAgree | src/campaign/eval.rs:237-260 | the campaign and the learner give every path the same shape |
| RouteShape.ShapeOfPath | src/unknown_threats/helpers.rs:93-120 | a shape is "/" or a slash-led join of non-empty segments that do not look dynamic, one for each segment of the path; taking it again changes nothing |
| RouteShape.DynamicIsIdentifier | src/unknown_threats/helpers.rs:93-120 | exactly the numbers, and the texts of at least 16 hexadecimal digits with any hyphens among them, are identifiers |
| EventLog.AppendDropsOnlyOldest | src/event_store/mod.rs:365-393 | an append drops exactly the file in the last slot when it rotates, and nothing otherwise |
| EventLog.AppendKeepsHistory | src/event_store/mod.rs:263-279 | every append keeps the log holding the end of all that was appended, packed within the size limit |
| EventLog.RotationLosesOnlyOldest | src/event_store/mod.rs:263-302 | from an empty log the lines are always the end of what was appended, each file within the size or of one event, and at least max_files + 1 events remain once any is lost |
| EventLog.AppendIsExact | src/event_store/mod.rs:365-393 | an append extends the live file unless the event would take it over the size, and then moves every file up by one |
| EventLog.RotatesOnlyWhenFull | src/event_store/mod.rs:365-393 | from an empty log no file is ever closed before the first line of the next one would take it over the size |
| EventLog.Log.RotateIfNeeded | src/event_store/mod.rs:365-393 | the descending renames move every file up by one |
| EventLog.Log.ReadEventLines | src/event_store/mod.rs:395-418 | the lines of all files, oldest first |
| EventLog.Log.Tail | src/event_store/mod.rs:281-295 | the last events appended, as many as asked for and readable |
| EventLog.Log.FindByRequestId | src/event_store/mod.rs:304-317 | the newest readable event with the id |
| EventLog.NewestIsFound | src/event_store/mod.rs:304-317 | no later readable event has the id, and none at all if nothing is found |
| Outbox.AcceptedAcknowledgements | src/console/client/requests.rs:359-392 | an acknowledgement is taken exactly when it is for this batch and gives each of its keys at most one outcome and no other key any; retried keys are not ended |
| Outbox.TerminalAcknowledgementKeys | src/console/client/requests.rs:359-392 | the loops find the first fault, or exactly the keys with a terminal outcome |
| Outbox.FaultIsFirst | src/console/client/requests.rs:359-392 | the fault reported is that of the first key that is not of the batch or was there before |
| Outbox.RepliesEndKeys | src/console/client/requests.rs:312-392 | a reply ends keys exactly if its status answers the batch and it fits the batch, and then those accepted, duplicate or rejected |
| Outbox.ConsoleOutbox.RemoveTerminal | src/console/outbox.rs:71-100 | keeps, in order, exactly the events whose id is not among the keys |
| Outbox.OutboxConservesEvents | src/console/outbox.rs:35-100 | for every interleaving of appends, batches and replies with distinct ids, the outbox is what was appended, in order, less exactly the keys sent and terminally acknowledged |
| Outbox.DeliverBatch | src/console/client/requests.rs:312-357 | one delivery is a batch taken and concluded, and its count is the number of keys that ended |
| Outbox.TakesOnlyTheBatch | src/console/outbox.rs:71-100 | concluding takes lines of the batch only, exactly when no later line carries an ended key |
| Outbox.SecondRecordIsLost | src/console/outbox.rs:71-100 | a second record under one id is removed unsent when the first is acknowledged |
| Outbox.SharedBatchStalls | vendor/saugra-console-contracts/src/lib.rs:92-115 | two records under one id within the first batch, or more than 500 records in it, stop every later delivery of that size or more |
| Outbox.DrainsInRounds | src/console/client/requests.rs:312-357 | deliveries whose replies give every key sent a terminal outcome, with no appends and a limit of 1 to 500, leave after k rounds exactly the events after the first k * limit, so all n are gone exactly after ceil(n / limit) rounds |
| ManagedPolicy.VerifyEffectivePolicy | src/console/client/policy.rs:66-185 | accepts exactly the responses that meet every local condition, and returns the exclusions they ask for |
| ManagedPolicy.ManagedPolicyHandle.Fetch | src/console/client/policy.rs:246-288 | every way a fetch can end, with its error and its effect on the handle |
| ManagedPolicy.ManagedPolicyHandle.Sync | src/console/client/policy.rs:290-302 | one poll, with overrides read twice and failures recorded as rejected |
| ManagedPolicy.ManagedPolicyHandle.Start | src/console/client/policy.rs:322-342 | startup activates a verified cached policy unless an override is in place |
| ManagedPolicy.StepEnforces | src/console/client/policy.rs:246-342 | each step keeps, clears or replaces what is enforced as its decision table says |
| ManagedPolicy.EnforcesLastVerified | src/console/client/policy.rs:246-342 | at every reachable state the enforced settings are cleared or those of the last policy that was verified and activated |
| ManagedPolicy.ActivationIsValidation | src/console/policy.rs:176-195 | the effective configuration with the exclusions is the one verification validated |
| ManagedPolicy.EffectiveIsAlwaysValid | src/console/client/policy.rs:150-184 | at every reachable state blocking <= detection <= local detection, the threshold is positive, only known rules are excluded, and the mode is Off only if it is Off locally |
| ManagedPolicy.ReportedIdentityFollowsDownloads | src/console/client/policy.rs:276-287 | at every reachable state the reported identity is that of the last download not put in force, if there is one since the last activation or clearing, and so differs from the policy in force exactly when that download names another |
| ManagedPolicy.JournalFollowsState | src/console/policy.rs:50-113 | from any journal loaded at startup, it never repeats itself in a row, and from the first change on ends with the current lifecycle and reason |
| PolicyTerms.AcceptanceIsExact | src/console/client/policy.rs:66-185 | a response is accepted exactly if it is authentic, its lists are texts, its mode is known, its numbers are in range and in order, and the exclusions it asks for are loaded and valid |
| PolicyTerms.ExclusionsAreAsked | src/console/client/policy.rs:66-123 | those exclusions are the listed ones, one for disabled rules and one for disabled categories, less those that choose nothing |
| PolicyTerms.SettingsInForce | src/console/policy.rs:124-195 | at every reachable state the effective settings are those of the standing policy over the local ones, field by field |
| PolicyTerms.EffectIsExact | src/console/client/policy.rs:246-342 | which steps put a policy in force and which drop it |
| PolicyTerms.StepsAreRecorded | src/console/client/policy.rs:246-342 | the transitions each step records, in order, and that the state shows the last of them |
| Bot.BotProtectionStore.Evaluate | src/bot/eval.rs:40-162 | evaluates one client in place as specified and touches no other |
| Bot.BlockHolds | src/bot/eval.rs:54-92 | until its deadline a block answers every request of the client that is not allowlisted with the same deadline and changes nothing, whatever other clients do |
| Bot.ScoresWindow | src/bot/eval.rs:94-148 | a scored request counts the contributors of the window before its own, and its own alone exactly when every entry is older |
| Bot.FreshStartAfterBlock | src/bot/eval.rs:54-148 | if blocks last longer than the window, the first scored request after one counts only its own contributors |
| Bot.ShortBlockRenewsItself | src/bot/eval.rs:94-148 | with a block no longer than the window, a silent client is blocked again |
| Behavior.BehaviorStore.Evaluate | src/behavior/mod.rs:210-274 | scores one client in place as specified and touches no other |
| Behavior.DecayChangesNothing | src/behavior/mod.rs:225-249 | over every run in which no client's clock readings go back, settings that differ in the decay window alone give the same outcomes |
| Behavior.DecayShowsOnRewind | src/behavior/mod.rs:225-249 | of any two decay windows the shorter one gives another outcome in a run whose clock goes back |
| ScoreVerdicts.BotIsExact | src/bot/eval.rs:40-162 | every answer of bot protection from any state: who passes, whom a running block answers, and for the others the entries that count, their sum, the threshold that decides and the block that follows |
| ScoreVerdicts.BehaviorIsExact | src/behavior/mod.rs:210-299 | every answer of behavior scoring from any state: the entries that count and are kept, their sum and the threshold that decides |
| Decision.DecisionWithBehaviorAndBot | src/proxy/handlers/helpers.rs:81-347 | the composed steps end in the action, rules and blocking score of the reference |
| Decision.ComposedMatches | src/decision.rs:112-128 | the score of the composed list counts a store's finding exactly when it blocks, and an eligible match remains exactly when the score is positive |
| Decision.BaseDecision | src/decision.rs:82-179 | the base decision in terms of that score and the mode |
| Decision.MonitorFindingsNeverBlock | src/proxy/handlers/helpers.rs:162-198 | deleting monitor-level bot and behavior findings never changes whether the request is blocked |
| Decision.ZeroThresholdLetsMonitorBlock | src/decision.rs:155-161 | under a threshold of 0, and only then, a lone monitor finding blocks in Block mode |
| Decision.DecisionIsMonotone | src/proxy/handlers/helpers.rs:276-340 | the action grows with the server mode and with what the stores find |
| Decision.NothingElseBlocksWhenOff | src/proxy/handlers/helpers.rs:102-136 | if the learner blocks in modes Block and Strict only, AllowAll, MonitorAll and server mode Off block exactly the runtime-blocklisted clients |
| DecisionCounts.ActionIsExact | src/proxy/handlers/helpers.rs:99-340 | the final action in full: whom it blocks and reports, from the matches counted by severity and level, what each store found, the mode and the allowlist |
| DecisionCounts.MatchesDecide | src/decision.rs:112-163 | without store findings, Strict blocks exactly if some match lies at or below the blocking level, Block exactly if two points a low, three a medium and five a high or critical match there come to the threshold |
| DecisionCounts.HigherLevelsNeverBlock | src/decision.rs:116-128 | deleting the matches above the blocking level never changes whether a request is blocked, in any mode and whatever the stores found |
| DecisionCounts.OneMatchAtFive | src/decision.rs:116-157 | under a threshold of 5 exactly the high and critical matches at or below the level block alone |
| DecisionCounts.RulesAreExact | src/proxy/handlers/helpers.rs:150-340 | the rules a decision reports, with the severity and level of those the stores add |
| DecisionCounts.ScoresAreExact | src/decision.rs:112-128 | the two scores of a decision as weights of its matches |
| Handler.ProxyState.Decide | src/proxy/handlers/helpers.rs:81-347 | asks the stores that the runtime policy leaves on, the campaign store with what the others found, updates them in place as specified and composes the specified decision |
| Handler.ScoringIsAsked | src/proxy/handlers/helpers.rs:136-222 | which stores are asked, under which mode, and that the learner may learn from a request exactly if no rule matched it |
| Handler.CampaignIsAsked | src/proxy/handlers/helpers.rs:224-274 | the campaign store is asked last, under exactly the categories of the matches and of what the other stores noticed, in order and without repetition |
| Handler.AnswersDecide | src/proxy/handlers/helpers.rs:81-347 | whom a handled request blocks and reports, by its own matches and runtime lists and by the answer of each store that is asked, none left out or mistaken for another |
| Handler.OffHearsLearnerOnly | src/proxy/handlers/helpers.rs:276-340 | in server mode Off only the learner's finding reaches the decision, whatever the other stores hold |
| Handler.StoresFindNoLess | src/proxy/handlers/helpers.rs:128-274 | asked from the same state, every store finds no less under a stricter mode, Off included, so that the findings grow with the mode |
| Handler.StoresLeftSame | src/proxy/handlers/helpers.rs:128-274 | between modes other than Off all stores are left the same |
| Handler.StricterModeIsNeverMilder | src/proxy/handlers/helpers.rs:81-347 | over whole runs, the same requests are each decided at least as severely under a stricter server mode, although the stores decide over the state that their own answers left |
| Handler.OnlyBlocklistedWhenOff | src/proxy/handlers/helpers.rs:99-136 | in every run, of the requests under AllowAll, MonitorAll or server mode Off exactly those of runtime-blocklisted clients are blocked |

## Left out

- File-system and Redis failures, partial writes, lock poisoning, the file stores and their stale-lock takeover: renames are atomic and the key-value store is correct.
- IEEE rounding: tokens and times are exact reals; how Redis stores numbers as text is not modelled.
- Sums of u16 scores and 64-bit clocks are natural numbers; only the truncations and saturations that the contracts mention are modelled.
- Signatures, digests, the identity and version checks of a policy: one verdict per response (`authentic`), and so are rule loading and the other validation checks (`restValid`).
- Regular expressions, rule packs, JSON decoding and proxying: rule matches, contributors and parsed values are inputs.
- CIDR, path and list matching, per-route overrides, threshold selection and the normalisation of methods, content types and query names: their results come with the request.
- Decision fields that only describe (severity, risk, explanation, OWASP categories) and the outcome fields of the learner that only report.
- AI explanations, reports, posture, mail and the command line.
- Requests handled at the same time: the handler model takes one request after the other, each store with its own clock reading; a store that fails is left as it was.
- Non-ASCII text: trimming, case and slicing are modelled on ASCII characters.
- Log files beyond the configured number that an earlier configuration left behind.
- Ordering inside sets and maps, which no modelled result depends on; a campaign event keeps its categories as a list.
- Entities held in maps (route baselines, token windows, bot clients, active campaigns) are values that the methods replace; a store's fields are updated in place, aliasing inside them is not modelled.
- The time between reading the policy journal for a heartbeat and acknowledging it: the same loop does both, one after the other.
- Campaign.EventsAreHistorySuffix: needs clock readings that never go back; across machines that is an assumption about their clocks.
- Campaign.CountsFullHistory: assumes window <= retention as the evaluator reads them, since configuration validation alone does not give it.
- UnknownThreats.BlockIsEarned: assumes positive times, and at least one required observation, which configuration validation demands.
- RateLimit.AdmissionBound: counts the seconds over which the key's clock readings run forwards, which is its wall-clock span only if they are in order; `BoundNeedsForwardTime` shows that nothing less will do.
- Behavior.DecayChangesNothing: needs that no client's clock readings go back; `DecayShowsOnRewind` shows why.
- Handler.StricterModeIsNeverMilder: for a positive threshold, which configuration validation demands, and for the same requests; that a client may act differently once it is blocked is not modelled.
- RateLimit.RedisRefinesMemory: for policies with requests_per_minute > 0; the script divides by the refill rate.
- Timestamp.RoundTrip: for seconds at least a day below the largest 64-bit value.
- CampaignLock.UpdatesSerialise: assumes that every write reaches the server before its lease ends; `StandingIsSequential` and `NothingIsLostIfUndisturbed` say what holds without that.
- Outbox.OutboxConservesEvents: assumes distinct request ids, which the two records of one monitored validation failure violate.
- Bot.FreshStartAfterBlock: assumes that blocks last longer than the score window.
- Decision.NothingElseBlocksWhenOff: takes from the learner that it blocks only under server modes Block and Strict; `Handler.OnlyBlocklistedWhenOff` has no such assumption.
- Decision.DecisionIsMonotone: takes from the stores that they find no less in a stricter mode, which `Handler.StoresFindNoLess` proves of them.
