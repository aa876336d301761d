# Scoop: proofs about the stateful cores of a news platform

A Dafny model of the six parts of the backend whose behaviour ranges over every input or every run, with proofs of
what the code promises there:

- **The radio** (`News`, `Grouping`, `GroupingLaws`, `Ranking`, `SlotPicker`, `SlotLaws`, `FitHeadline`, `RadioGate`,
  `RadioLaws`): articles are grouped into stories by union-find, ranked, picked into three slots under shared caps, and
  judged by a language model that is treated as an adversary.
- **The film day** (`FilmLibrary`, `FilmRotation`, `FilmRule`, `FilmDayLaws`, `FilmPlayout`, `MarkerPairs`): a
  catalogue, a day planner with a repeat gap and a break filler that restarts its own scan, and the cue list it must
  produce.
- **The language-model caller** (`Pump`, `RateWindow` over `SlidingWindow`, `DailyCap`, `LlmRetry`, `LlmBreaker`): a
  serial priority queue, a per-minute limiter, a daily ceiling shared by processes, a retry loop and a circuit breaker.
- **Migrations** (`MigrationRegistry`, `MigrationWait`, `MigrationProtocol`, `ProtocolLaws`): owners and waiters over one
  table, with crashes.
- **The singleton enqueue** (`SingletonEnqueue`, `EnqueueLaws`): four round trips with workers and other producers in
  between.
- **The ledgers** (`Trackers`, `VideoPosts`, `Meter`): a log of metrics that replays to what is stored, a
  claim-and-publish state machine, a rolling-window meter.

Code that updates objects or arrays in place is a class or a method over an array, proved against functions on values;
protocols of several processes are steps of a state machine, and their theorems range over all its runs. `Common` and
`StableSort` hold what several modules share; `StableSort` is what the code assumes of `Array.prototype.sort`.

What an operation does is stated twice: by the contract of the method, in the terms of the code, and by a law on the
fields, the answers or the history alone, with its numbers written out. The picker and the planner each come down to one
rule of preference that determines their result (`SlotLaws.OneHour`, `FilmRule.OneDay`).

`dafny verify dfyconfig.toml` checks everything.

## Where the code does not do what it says

Each of these is a theorem, with the exact condition under which the promise holds and a run or input that breaks it.

- The limiter keeps its limit in all runs exactly when no two dispatches share a millisecond; if the clock stands still
  it lets any number through (`RateWindow.LimitHoldsIff`, `RateWindow.StandingClock`).
- The "hard global ceiling" on calls a day is one exactly for a single calling process; with P it is exceeded by up to
  P - 1, and that happens (`DailyCap.HardCeilingIff`, `DailyCap.AllWrite`).
- After the cooldown the breaker lets through not one probe but as many calls as the cap of each UTC day admits; it is
  one exactly when no two calls fall on days with room for both, and around midnight two pass even when each day has room
  for one (`LlmBreaker.ProbesPass`, `LlmBreaker.ProbesAtMidnight`).
- A transient error is waited for exactly when its text speaks of neither credit nor permission and its status is not a
  hard one; otherwise it ends the call at once (`LlmRetry.TransientIsHardIff`, `LlmRetry.RateLimitIsHard`).
- A rejected parameter is kept from being sent again exactly when the caller does not insist on it
  (`LlmRetry.NotResentIff`, `LlmRetry.InsistedIsResent`).
- An enqueue that timed out enqueues all the same exactly when it was given up at its add and that add lands on a free
  id (`SingletonEnqueue.RejectedCallMakesJobIff`); a job reported as enqueued stays exactly until some remove is carried
  out (`SingletonEnqueue.EnqueuedKeepsIdIff`), which may be another producer's or the call's own.
- Writing the claim before the upload prevents a second upload after a lost record exactly from the second attempt on
  (`VideoPosts.LostRecordUploadsAgainIff`), and a claim publishes again exactly when it takes over a row that is
  published or pending (`VideoPosts.StaleClaimIff`), because it does not look at that row.
- The metric log and the stored metrics come apart when two processes update one tracker, exactly when the other write
  touched a metric this one does not set (`Trackers.StaleUpdateIff`, `Trackers.UpdateIsLost`); the previous blocks in the
  log are wrong exactly when it touched one this one sets (`Trackers.RowsRememberIff`).
- Two owners may conflict over a migration exactly when both know of one that is yet to be applied
  (`MigrationProtocol.ConflictFreeIff`).
- The meter bounds the articles newly opened in a window. The distinct articles read stay within the limit exactly when
  the old ones reread are no more than those new opens leave free, and for every limit a single old one can exceed it
  (`Meter.DistinctReadsIff`, `Meter.RereadingExceeds`).

One comment is read the other way: `backend/src/radio/radioState.js:244` says the lead's description counts for
sensitivity, the line below it passes titles only, and the model follows that line.

## Model

| member | source | states |
|---|---|---|
| `Grouping.GroupArticles` | backend/src/radio/radioRank.js:186-209 | union-find over a parent array returns exactly the connected components of "same story, fetched within 90 minutes of each other": every article in one group, two together iff a chain of such pairs joins them, groups and members in input order |
| `Grouping.Find` | backend/src/radio/radioRank.js:190 | following parents ends, returns the root of the tree, and re-hanging the nodes passed on the way changes no class |
| `Grouping.Hang` | backend/src/radio/radioRank.js:199 | hanging one root under another merges exactly their two classes and keeps the forest well-founded |
| `Grouping.ComponentsReached` | backend/src/radio/radioRank.js:191-201 | once every pair has been looked at, any two articles joined by a chain of linked pairs are in one class |
| `GroupingLaws.OrderDoesNotMatter` | backend/src/radio/radioRank.js:186-209 | permuting the articles permutes the same groups: any two are together after exactly when they were before |
| `GroupingLaws.StoriesNeverCollide` | backend/src/radio/radioRank.js:186-209 | when all articles were fetched within one window, articles of different groups are never the same story, asked in either order |
| `GroupingLaws.LinkedSymmetric` | backend/src/radio/radioRank.js:194-199 | the pair test of the grouping loop does not depend on which article comes first |
| `GroupingLaws.LinkedMeans` | backend/src/radio/radioRank.js:186-199 | the pair test on the fields: within ninety minutes, and cosine of at least 0.82 or, without two vectors, half of all title words shared, or three shared key terms, 60% of one title's, with a name of both among them |
| `News.SameKeysSymmetric` | backend/src/radio/radioRank.js:119-127 | the key-term rule is symmetric, also on equal sizes where the first title plays the smaller one, because a name is always a content word |
| `News.SameKeysNeedsNamesAmongAll` | backend/src/radio/radioRank.js:119-127 | two key-term sets, one with a name outside its content words, for which the rule gives different answers in the two orders |
| `News.JaccardSymmetric` | backend/src/radio/radioRank.js:69-74 | title similarity is symmetric |
| `News.SameStorySymmetric` | backend/src/radio/radioRank.js:149-152 | two stories are the same in one argument order iff in the other |
| `Ranking.RankStories` | backend/src/radio/radioRank.js:236-249 | the ranking is the stably sorted list of the groups somebody reported this hour |
| `Ranking.RankingIsOrdered` | backend/src/radio/radioRank.js:239-248 | a story is ranked iff its group has an article of this hour; scores never rise down the list and newer comes first on ties |
| `Ranking.LeadIsBest` | backend/src/radio/radioRank.js:244 | the lead is an article of its group and none is more credible, or as credible and newer |
| `Ranking.StoryMeans` | backend/src/radio/radioRank.js:238-247 | a story holds all articles of its group, each outlet that filed in the last hour once, the time of its latest article, and sport iff any article is |
| `Ranking.ScoreAdds` | backend/src/radio/radioRank.js:243 | the score of a list of outlets is the sum of their weights |
| `Ranking.FloodingDoesNotPay` | backend/src/radio/radioRank.js:239-243 | the score depends only on the set of outlets that filed this hour, however many items each filed |
| `SlotPicker.PickSlots` | backend/src/radio/radioRank.js:294-344 | for every ranking: the headline is its top, and missing iff it is empty; each further pick is the best-ranked its pass wants that fitted beside exactly the picks made before it, pass after pass, each pass ending only when full or used up; two per publisher, the sport and the topic cap hold over all three slots together, no story is taken twice and no two that are the same story in either order; a slot is left short only when nothing that could fill it fits any more |
| `SlotPicker.ShortMeansNothingLeft` | backend/src/radio/radioRank.js:321-343 | if "also" is short nothing fits any more and music is empty; if music is short neither of its pools has a story that still fits |
| `SlotPicker.FitsOnlyShrinks` | backend/src/radio/radioRank.js:299-310 | a story that does not fit beside some picks never fits beside more |
| `SlotPicker.TakeKeepsCaps` | backend/src/radio/radioRank.js:311-319 | taking a story that fits keeps every cap and the no-duplicates rule |
| `SlotPicker.TakeKeepsCounters` | backend/src/radio/radioRank.js:311-319 | the counters and sets updated by take() go on counting exactly the stories on air |
| `SlotPicker.Board.Take` | backend/src/radio/radioRank.js:311-319 | one more story on air, the counters still right, nothing else changed |
| `SlotPicker.Draw` | backend/src/radio/radioRank.js:325-327 | one pass down the ranking: each story taken is the best-ranked the pool wants that fits beside the picks before it; the pass stops at the cap or when nothing of the pool fits |
| `SlotPicker.PickAlso` | backend/src/radio/radioRank.js:322-327 | corroborated stories first, each the best-ranked that fitted when it was taken, until none fits or the list is full; then whatever else fits, likewise |
| `SlotPicker.PickMusic` | backend/src/radio/radioRank.js:332-341 | the corroborated pool, then the single-outlet pool, never a sensitive story: in each, category by category in their order, the best-ranked that fitted when it was taken and whose category was not on the list; then the best-ranked that fit; each pass ends only when its pool is used up or the list full |
| `SlotLaws.PickedByPreference` | backend/src/radio/radioRank.js:294-344 | the eight passes amount to one rule on the fields of the stories: the headline is the top, each pick of "also" the most preferred story not shut out (two outlets first, then rank), each pick over music the most preferred of those that are plainly news (two outlets first, then a category not heard, in the order of the show, then rank), and a slot is short only when all is shut out |
| `SlotLaws.OneHour` | backend/src/radio/radioRank.js:294-344 | and that rule leaves nothing open: a ranking has exactly one such hour |
| `SlotLaws.FitsIff` | backend/src/radio/radioRank.js:299-310 | a story is shut out iff it is on air, tells a story on air, shares the topic of one, is the second of sport, or the third of its publisher |
| `SlotLaws.AlsoIsGreedy` | backend/src/radio/radioRank.js:322-327 | a story of one outlet gets into "also" only when every story of two is shut out |
| `SlotLaws.MusicIsGreedy` | backend/src/radio/radioRank.js:332-341 | over music: never sensitive, and two outlets or no article that is an aggregator link, entertainment or a paper |
| `SlotLaws.SameStoryMeans` | backend/src/radio/radioRank.js:149-152 | two stories are the same iff an article of the one tells the same story as an article of the other |
| `RadioGate.BuildState` | backend/src/radio/radioState.js:237-298 | what airs is the right picks of the ranking less what the verdicts and the judge took off; for every answer of the language model, an aired story that touches Pakistan has a keep on record, given in a round that asked about it, none that was refused airs, a story over music has an explicit clean verdict and no title that trips the keyword guard, the caps hold, nothing airs twice, and every line fits the screen |
| `RadioGate.JudgeRounds` | backend/src/radio/radioState.js:263-287 | at most three rounds of pick, judge and replace: the ranking loses only refused stories and keeps its order, the record holds the answer of the round that asked, and what airs is the last picks less what is refused or still needs a verdict; fewer rounds only when nothing is left to judge or replace |
| `RadioGate.AirIsCleared` | backend/src/radio/radioState.js:264-287 | an aired story is not refused; one with a Pakistan signal was asked about in a round whose answer is a list, and the last entry for its id there says keep |
| `RadioGate.MusicIsVetted` | backend/src/radio/radioState.js:245-259 | a story that came through the verdicts and is not sensitive was given opinion, soft and sensitive false and story true, and no title of it trips the keyword guard |
| `RadioGate.MusicAfterCut` | backend/src/radio/radioState.js:264-287 | what is over music after the last cut is ranked and not sensitive, as it was before |
| `RadioGate.CapsAfterCut` | backend/src/radio/radioState.js:275-285 | taking blocked stories off keeps the shared caps and repeats nothing |
| `RadioGate.JudgeRound` | backend/src/radio/radioState.js:266-273 | after a round every pick with a Pakistan signal has a verdict, verdicts already recorded stand, and exactly the refused picks are dropped |
| `RadioGate.JudgeItems` | backend/src/radio/radioRules.js:202-227 | a verdict for exactly the items with a Pakistan signal, and allowed iff the answer is a list whose last entry for that id says keep; an error, a malformed answer or a missing item is a drop |
| `RadioGate.HeadlineCall` | backend/src/radio/radioState.js:169-198 | the line of a story of the call is the last usable one the answer gives for its id, else its own fitted title, never empty; a verdict only where the last well-formed item for that id gives one |
| `RadioGate.MergeVerdicts` | backend/src/radio/radioState.js:251-259 | the surviving ranking in order: no verdict means sensitive, a verdict may raise sensitivity but never lower it, opinion, soft or not-a-story drops |
| `RadioGate.FittingLead` | backend/src/radio/radioState.js:148-156 | a story is kept iff one of its titles fits; the new lead is one of its articles and fits, and a lead that fits is never replaced |
| `RadioGate.LastVerdictIs` | backend/src/radio/radioState.js:181-187 | the verdict on an id is that of the last item for it that gives all three flags as booleans; a missing "story" is not a story |
| `RadioGate.LastLineIs` | backend/src/radio/radioState.js:190-192 | the line of an id is that of the last item for it of 12 to 90 characters that does not end in an ellipsis |
| `RadioLaws.MergeMeans` | backend/src/radio/radioState.js:245-259 | a story is dropped iff its verdict says opinion, soft or no story; otherwise nothing of it changes but that it is sensitive iff a title is tragic, the verdict says so or there is none |
| `RadioLaws.MergedInOrder` | backend/src/radio/radioState.js:251-259 | the ranking goes on in its order without the dropped stories |
| `RadioLaws.FittingLeadIsBest` | backend/src/radio/radioState.js:150-153 | a lead that does not fit gives way to the most credible article whose title does, the newest on a tie |
| `RadioLaws.FittedInOrder` | backend/src/radio/radioState.js:148-156 | the ranking goes on in its order without the stories no title of which fits, which are reported |
| `RadioLaws.WordedMeans` | backend/src/radio/radioState.js:169-198 | the wording call is about the first thirty stories; each has a line, from the answer or its own title, and nothing else has |
| `RadioLaws.ThinnedMeans` | backend/src/radio/radioState.js:269-274 | what is gone from the ranking was refused |
| `RadioLaws.CutMeans` | backend/src/radio/radioState.js:275-285 | the last cut takes off, slot by slot and in order, exactly what is refused or touches Pakistan and was never judged |
| `RadioLaws.AiredByPreference` | backend/src/radio/radioState.js:263-274 | before that cut the picks are the hour by preference of the final ranking, five in "also" and up to six over music |
| `FitHeadline.Fit` | backend/src/radio/radioState.js:71-81 | a short line is kept whole; a long one becomes the longest real headline at a clause boundary that fits, or nothing: never a cut elsewhere |
| `FitHeadline.HeadMeans` | backend/src/radio/radioState.js:76 | cutting at a boundary leaves what stands before it, without trailing blanks |
| `FilmLibrary.LoadLibrary` | backend/src/radio/filmLibrary.js:75-123 | every file is listed or reported with its reason, once; a Short stays only if it may air against the films of the same scan |
| `FilmLibrary.BarShorts` | backend/src/radio/filmLibrary.js:115-121 | the backwards splice removes exactly the Shorts that may not air, keeps the order of the rest and reports the removed ones last first |
| `FilmLibrary.CatalogueIsAirable` | backend/src/radio/filmLibrary.js:58-66 | all that is catalogued is published with a positive length, and a Short is a permitted ScoopFeeds 60 or names a published film of the same catalogue |
| `FilmLibrary.PlannerRecheckIsIdle` | backend/src/radio/filmRotation.js:75 | the second eligibility check in the planner refuses nothing that the catalogue let through |
| `FilmLibrary.ScreenMeans` | backend/src/radio/filmLibrary.js:75-105 | a file is listed iff its sidecar reads and gives a length, a publication date that has come and a title; it is a Short iff of that series, with a parent, or a minute long at most |
| `FilmLibrary.SkipMeans` | backend/src/radio/filmLibrary.js:75-105 | an unlisted file is reported with the first thing missing |
| `FilmLibrary.BarredMeans` | backend/src/radio/filmLibrary.js:58-66 | a Short is barred iff it is a ScoopFeeds 60 not permitted, or names no parent, an unpublished one or one not in the library; with that reason |
| `FilmLibrary.FilesInOrder` | backend/src/radio/filmLibrary.js:75-113 | listed and reported files keep the order of the files |
| `FilmLibrary.BarredLastFirst` | backend/src/radio/filmLibrary.js:115-121 | the barred Shorts are reported last first |
| `FilmRotation.PlanDay` | backend/src/radio/filmRotation.js:72-125 | for every library with positive durations and every slot list: slots answered in time order, no two films or Shorts overlap, and no id returns within six hours of an earlier airing in the plan or of its last recorded airing; the film and break of each slot are the ones the rules choose |
| `FilmRule.DayByRule` | backend/src/radio/filmRotation.js:72-125 | every slot of a planned day, told from history and earlier airings alone: left empty iff an airing is still on or no film is out of its six hours; else the preferred film that is (newest episode of its series under seven days at prime time, another film otherwise, then library order), and after it Shorts back to back, each the first in turn that ends within five minutes and is out of its six hours, the turn going on after the last Short aired that day, until none may follow |
| `FilmRule.OneDay` | backend/src/radio/filmRotation.js:72-125 | and that rule leaves nothing open: the same library, history, slots and clock have one day of airings, promos and empty slots |
| `FilmRule.BreakByRule` | backend/src/radio/filmRotation.js:108-121 | a break is filled in turn: between the last Short aired and the next one, every Short was too long for what was left or too soon |
| `FilmRule.AiredIsPlanned` | backend/src/radio/filmRotation.js:105-121 | what aired in the slots is what airs in the plan |
| `FilmRule.InTimeOrder` | backend/src/radio/filmRotation.js:92-124 | slots are taken and the plan is given in time order, each a permutation that keeps the order of equal times |
| `FilmRule.ChosenInOrder` | backend/src/radio/filmRotation.js:73-75 | the planner's films and Shorts are those of the library in its order; a Short needs a permitted series or a film of the library as parent |
| `FilmRotation.FillBreak` | backend/src/radio/filmRotation.js:108-120 | the scan that resets its own index ends; each Short placed is the first of the rotation that fits, and when it ends no eligible Short would still fit |
| `FilmRotation.PlacementUsesUp` | backend/src/radio/filmRotation.js:110-119 | a Short placed in a break stays ineligible for the rest of it, because the break is shorter than the gap: the measure of the restarted scan |
| `FilmRotation.ChooseFilm` | backend/src/radio/filmRotation.js:97-102 | prime slots prefer a newest episode and the others an older film, first in library order; none is chosen iff every film is inside the repeat gap |
| `FilmRotation.NewestEpisodes` | backend/src/radio/filmRotation.js:84-86 | the new ones among the first-listed film of each series, in order |
| `FilmRotation.SortKeepsAirings` | backend/src/radio/filmRotation.js:123 | the final sort with the promos leaves films and Shorts in the order they were planned |
| `FilmDayLaws.BreakIsContiguous` | backend/src/radio/filmRotation.js:108-121 | a break runs without a hole from the end of its film, takes at most five minutes and airs no Short twice |
| `FilmDayLaws.EverySlotAnswered` | backend/src/radio/filmRotation.js:94-106 | films planned and empty slots reported add up to the slots |
| `FilmDayLaws.SlotAnswered` | backend/src/radio/filmRotation.js:94-106 | one slot gives exactly one film, at the slot's own instant, or one empty entry |
| `FilmDayLaws.PromosAnnounceNewFilms` | backend/src/radio/filmRotation.js:105 | a promo stands in the plan iff a new film airs thirty minutes later |
| `FilmDayLaws.NewestIsNewest` | backend/src/radio/filmRotation.js:83-86 | on a library listed newest first, the newest episodes are exactly the new films no other of their series is newer than |
| `FilmDayLaws.GapAcrossDays` | backend/src/radio/filmRotation.js:76-80 | days chained by the history they leave keep the repeat gap over both days together |
| `FilmPlayout.PlanToCues` | backend/src/radio/filmPlayout.js:24-33 | the cues are the airings in time order, or the first overlap is named |
| `FilmPlayout.CueAt` | backend/src/radio/filmPlayout.js:36-39 | the first cue that covers the instant with its offset; none iff no cue covers it |
| `FilmPlayout.PlayDay` | backend/src/radio/filmPlayout.js:24-39 | playing any planned day never throws; at every instant something is on air iff the plan has an airing there, and then it is that airing's own item and file, at the offset of the clock, inside its length |
| `FilmPlayout.DisjointPlanIsPlayable` | backend/src/radio/filmPlayout.js:24-33 | a plan whose airings are disjoint gives cues in order, none starting before the previous has ended |
| `FilmPlayout.OnAirIsUnique` | backend/src/radio/filmPlayout.js:36-39 | no two cues of such a plan cover one instant |
| `FilmPlayout.CuesOfAirings` | backend/src/radio/filmPlayout.js:24-33 | the cues are the airings one for one: same item, same file, on air from start to start plus length |
| `FilmPlayout.CuesInTimeOrder` | backend/src/radio/filmPlayout.js:24-27 | cues are sorted by start, and those that start together keep their order |
| `FilmPlayout.OverlaysArePromos` | backend/src/radio/filmPlayout.js:24-33 | the overlays are the promos of the plan |
| `MarkerPairs.PairMarkers` | backend/src/radio/filmPlayout.js:109-125 | each flash in turn gets the nearest free beep in the window; every marker is paired or reported, once; the worst offset is the largest |
| `MarkerPairs.NothingLeftToPair` | backend/src/radio/filmPlayout.js:113-122 | a flash and a beep that are both reported as unmatched are never within the window of each other |
| `MarkerPairs.OneMatching` | backend/src/radio/filmPlayout.js:113-121 | the markers determine the pairing |
| `MarkerPairs.GreedyMayMiss` | backend/src/radio/filmPlayout.js:113-121 | markers that could all be paired, of which nearest-first leaves one pair out |
| `MarkerPairs.PairsMean` | backend/src/radio/filmPlayout.js:119-120 | a reported pair is a flash and its partner, with how far the sound comes after the picture |
| `MarkerPairs.LoneFlashesMean` | backend/src/radio/filmPlayout.js:119 | the flashes without a partner are reported |
| `MarkerPairs.LoneBeepsMean` | backend/src/radio/filmPlayout.js:122 | so are the beeps that are nobody's partner |
| `Pump.Pump.Enqueue` | backend/src/realityIndex/llmQueue.js:199-204 | a call at a resting pump is taken at once, otherwise it queues; the pump is then in flight; every call is waiting, being served or settled, exactly once |
| `Pump.Pump.Finish` | backend/src/realityIndex/llmQueue.js:183-196 | the running call is settled; of those queued the next is a "high" one if any is, a "low" one only if nothing else is, and of its kind the earliest by the clock, then by arrival; the pump rests iff nobody waits; everyone left has moved up by one |
| `Pump.FirstByName` | backend/src/realityIndex/llmQueue.js:184-201 | a task minimal for the comparator goes first by the priorities the callers named |
| `Pump.Pump.Start` | backend/src/realityIndex/llmQueue.js:178-182 | a second pump never starts |
| `Pump.SortGivesOrder` | backend/src/realityIndex/llmQueue.js:184 | because the sort is stable, ties keep the order of arrival however often the queue is sorted again |
| `Pump.TakingAdvances` | backend/src/realityIndex/llmQueue.js:184-185 | taking a task brings every other one exactly one place forward |
| `Pump.ArrivalDelays` | backend/src/realityIndex/llmQueue.js:201 | a newcomer delays only those it goes before |
| `Pump.RestMeansSettled` | backend/src/realityIndex/llmQueue.js:183-196 | at rest, every call that ever arrived has been settled exactly once |
| `RateWindow.RunKeepsLimit` | backend/src/realityIndex/llmQueue.js:168-190 | in every run in which a millisecond passes between dispatches, any rpm + 1 consecutive dispatches span at least a minute |
| `RateWindow.NoMinuteOverLimit` | backend/src/realityIndex/llmQueue.js:168-190 | no window of a minute, wherever it starts, holds more than rpm dispatches |
| `RateWindow.TurnKeepsLimit` | backend/src/realityIndex/llmQueue.js:186-190 | one turn keeps the limit iff its pruned list has at most rpm entries or its clock, before any pause, is a minute past the rpm-th last dispatch |
| `RateWindow.LongListIsATie` | backend/src/realityIndex/llmQueue.js:168-172 | the pruned list is longer than rpm only if the clock has not moved since the last dispatch |
| `RateWindow.LimitHoldsIff` | backend/src/realityIndex/llmQueue.js:168-190 | for every rpm the limit is kept in all runs iff the clock moves by at least a millisecond from each dispatch to the next check |
| `RateWindow.StandingClock` | backend/src/realityIndex/llmQueue.js:168-190 | for every rpm and m a run that dispatches m calls in the one millisecond at 60 000 |
| `RateWindow.Window.WithinBudget` | backend/src/realityIndex/llmQueue.js:168-172 | the loop forgets from the front exactly what is more than a minute old |
| `RateWindow.Window.Dispatch` | backend/src/realityIndex/llmQueue.js:186-190 | one turn: prune, wait for the oldest entry, record the dispatch |
| `RateWindow.TurnMeans` | backend/src/realityIndex/llmQueue.js:168-190 | a turn forgets what is over sixty seconds old at its check, and dispatches at once if there is room or the oldest kept is sixty seconds old by then, else fifty milliseconds after that |
| `SlidingWindow.SpacedIsWindowed` | backend/src/realityIndex/llmQueue.js:168-176 | spacing of rpm + 1 consecutive events is the same as no window holding more than rpm |
| `DailyCap.OvershootIsSmall` | backend/src/realityIndex/llmQueue.js:105-127 | with P processes, any interleaving of read and write, crashes and change of day, a day's total is at most cap + P - 1 |
| `DailyCap.HardCeilingIff` | backend/src/realityIndex/llmQueue.js:105-127 | the cap holds in every run iff one process makes calls or the cap admits none |
| `DailyCap.AllWrite` | backend/src/realityIndex/llmQueue.js:109-123 | the run that reaches cap + P - 1 |
| `DailyCap.UpsertCountsOne` | backend/src/realityIndex/llmQueue.js:119-122 | the upsert adds one to its own day's sum and nothing to any other |
| `DailyCap.UpsertKeepsKey` | backend/src/realityIndex/llmQueue.js:119-122 | the upsert keeps one row to a day and task, and only that row is new or one higher |
| `DailyCap.ApplyMeans` | backend/src/realityIndex/llmQueue.js:109-123 | a check lets a process pass iff the day is under the cap; a write counts what passed, on the day that was checked, once |
| `DailyCap.Counter.ConsumeLlmBudget` | backend/src/realityIndex/llmQueue.js:105-127 | undisturbed: a call goes through, and is counted once, iff the day's total is under the cap |
| `LlmRetry.Client.RawCall` | backend/src/realityIndex/llmQueue.js:285-385 | for any sequence of replies: the loop ends after at most delays + 3 requests, never by falling out of the loop; each extra request is paid for by a pause or by a rejection newly noted for the process, and has that reason; pauses are the configured ones in order; the outcome is the last reply's; every request carries temperature and the disabled thinking object according to what had been rejected before it and what the caller insists on |
| `LlmRetry.OutcomeMeans` | backend/src/realityIndex/llmQueue.js:217-238 | which outcome an error ends a call with: billing, auth, permission, dead model, transient or its status, the first rule that applies deciding |
| `LlmRetry.SentMeans` | backend/src/realityIndex/llmQueue.js:274-283 | request by request on the replies: temperature until a 400 named the sampling parameters; thinking disabled if the caller says so, or says nothing and no 400 for thinking was noted |
| `LlmRetry.ResentIff` | backend/src/realityIndex/llmQueue.js:279-283 | request by request: a rejected temperature is never sent again, a rejected disabled thinking object iff the caller insists on it |
| `LlmRetry.NotResentIff` | backend/src/realityIndex/llmQueue.js:274-283 | no rejected parameter is sent again, in any call, iff the caller does not insist on the disabled thinking object |
| `LlmRetry.InsistedIsResent` | backend/src/realityIndex/llmQueue.js:357-372 | the insisted object is rejected, sent once more for nothing, and the call ends as http_400, whatever pauses are left |
| `LlmRetry.TransientIsHardIff` | backend/src/realityIndex/llmQueue.js:218-238 | against the comment that no transient error is hard: a model that always answers with one transient error ends the call as hard, with no pause taken, iff its text mentions credit or permission or it carries status 401 to 404; otherwise every pause is taken first |
| `LlmRetry.HardIsNotWaitedFor` | backend/src/realityIndex/llmQueue.js:351-381 | against a hard error nothing is sent again but what a newly rejected parameter pays for |
| `LlmRetry.RateLimitIsHard` | backend/src/realityIndex/llmQueue.js:218-238 | a rate-limit reply that says the credit is too low ends the call at the first request |
| `LlmBreaker.RecordIsHistory` | backend/src/realityIndex/llmBreaker.js:21-49 | after any history the counter is the number of hard failures since the last success, it is open iff that reaches the threshold (at least one), and then until the last of them plus the cooldown |
| `LlmBreaker.BlocksIsOpen` | backend/src/realityIndex/llmBreaker.js:29-32 | what isOpen computes from the record is what the history says |
| `LlmBreaker.ClosedForTheCooldown` | backend/src/realityIndex/llmBreaker.js:39-49 | from the failure that completes the streak, calls are blocked for exactly the cooldown, whatever transient failures come between |
| `LlmBreaker.SuccessReopens` | backend/src/realityIndex/llmBreaker.js:33-38 | a success opens the gate, and it takes a full threshold of hard failures to close it again |
| `LlmBreaker.Breaker.IsOpen` | backend/src/realityIndex/llmBreaker.js:29-32 | open iff the history blocks |
| `LlmBreaker.Breaker.RecordHardFailure` | backend/src/realityIndex/llmBreaker.js:39-49 | the record of this provider moves with its history, the others stay |
| `LlmBreaker.Breaker.RecordSuccess` | backend/src/realityIndex/llmBreaker.js:33-38 | the record of this provider moves with its history, the others stay |
| `LlmBreaker.Caller.CallJson` | backend/src/realityIndex/llmQueue.js:497-514 | a call is queued, and counted on its UTC day, iff the client is available, the breaker does not block and the cap of that day is not reached; a refused call leaves no trace |
| `LlmBreaker.ProbesPass` | backend/src/realityIndex/llmBreaker.js:7-9 | against "one probe": after a completed streak and its cooldown, until an outcome is recorded, exactly those calls pass that the cap of their UTC day admits, in order and day by day; at most one iff no two fall on days with room for both |
| `LlmBreaker.OnePassesIff` | backend/src/realityIndex/llmQueue.js:105-127 | for all calls and days: at most one passes iff of any two one falls on a day with no call left, or both on a day with one |
| `LlmBreaker.ProbesAtMidnight` | backend/src/realityIndex/llmBreaker.js:7-9 | two calls on the two sides of midnight both pass, though each day had room for only one |
| `MigrationRegistry.AssertRegistryIntact` | backend/src/db/migrate.js:125-175 | accepted iff every entry is named, ids ascend and every migration file is registered; accepted ids are distinct; the first fault is the one reported |
| `MigrationRegistry.IncreasingMeans` | backend/src/db/migrate.js:135-151 | ascending neighbours make the whole list ascending and free of duplicates |
| `MigrationRegistry.LessMeans` | backend/src/db/migrate.js:145 | the order of ids: the first differing character decides, a prefix comes first |
| `MigrationRegistry.OrphanMeans` | backend/src/db/migrate.js:156-167 | a file is an orphan iff it ends in .js, not in .test.js, and its name without .js is not registered |
| `MigrationRegistry.NamedMeans` | backend/src/db/migrate.js:128 | an entry is named iff its id is a string that is not blank |
| `MigrationRegistry.MissingInOrder` | backend/src/db/migrate.js:191-192 | what is missing is the registry in its order without what is applied |
| `MigrationRegistry.Database.RunMigrations` | backend/src/db/migrate.js:177-211 | undisturbed, what is missing is applied once each in registry order; a failing up() leaves exactly what came before it |
| `MigrationRegistry.SecondPassIsIdle` | backend/src/db/migrate.js:182-193 | after a full pass everything is applied and the next pass does nothing |
| `MigrationProtocol.RunIsSafe` | backend/src/db/migrate.js:177-293 | any number of owners, waiters, crashes, restarts and older releases: the applied registered ids are always the beginning of the registry, an owner is done and a waiter returns only when all it knows of is applied |
| `MigrationProtocol.CommitsAreOnce` | backend/src/db/migrate.js:195-201 | in every run each up() commits at most once, and never for what was applied before |
| `MigrationProtocol.AppliedIsPrefix` | backend/src/db/migrate.js:192-201 | there is one point in the registry up to which all is applied and after which nothing is |
| `MigrationProtocol.SingleOwnerNeverConflicts` | backend/src/db/migrate.js:214-231 | if no two owners ever apply at the same time no process hits a conflict |
| `MigrationProtocol.OneOwnerCastNeverConflicts` | backend/src/db/migrate.js:223-231 | with a single owning process, however often it crashes and starts again among any waiters, no process hits a conflict |
| `MigrationProtocol.ConflictIff` | backend/src/db/migrate.js:182-201 | in every run a process that takes up a migration conflicts iff another process committed that migration since this one was started |
| `MigrationProtocol.TwoOwnersConflict` | backend/src/db/migrate.js:216-221 | for any two owners that share a migration yet to be applied, a run in which one applies and the other conflicts, with one row more in the table |
| `MigrationProtocol.NothingSharedNeverConflicts` | backend/src/db/migrate.js:214-231 | owners that share no migration yet to be applied never conflict, in any run with crashes and restarts |
| `MigrationProtocol.ConflictFreeIff` | backend/src/db/migrate.js:216-221 | for every cast and starting table: no run has a conflict iff no two owners both know of a migration that is yet to be applied |
| `MigrationProtocol.WaiterReturns` | backend/src/db/migrate.js:258-293 | once all is applied, the next full pass lets the waiter go, even when its time is up |
| `ProtocolLaws.StartsIff` | backend/src/db/migrate.js:182-228 | a process that starts applies from a snapshot of the table if it owns the migrations, else waits |
| `ProtocolLaws.OwnerEndsIff` | backend/src/db/migrate.js:191-205 | exactly when an owner skips an entry, writes it, fails, conflicts or is done |
| `ProtocolLaws.WaiterEndsIff` | backend/src/db/migrate.js:264-290 | a waiter returns iff a pass ends that missed nothing, late or not; it gives up iff one ends that missed something and it is late |
| `ProtocolLaws.GivesUpOnlyLate` | backend/src/db/migrate.js:264-290 | in every run, a waiter that gave up had looked for an id and not found it, and was late |
| `MigrationWait.WaitForMigrations` | backend/src/db/migrate.js:258-293 | the polling loop ends once the deadline passes; it returns normally iff the last pass missed nothing, gives up only after the deadline, and never polls after a pass that missed nothing |
| `MigrationWait.EmptyPassMeansApplied` | backend/src/db/migrate.js:264-269 | though each id is looked up by its own read, a pass that misses nothing proves everything applied when it ends |
| `MigrationWait.AppliedMeansEmptyPass` | backend/src/db/migrate.js:264-269 | a pass begun when everything is applied misses nothing |
| `MigrationWait.PassMisses` | backend/src/db/migrate.js:264-269 | a pass misses exactly the ids whose own look did not find them, and names the first of these first |
| `SingletonEnqueue.RunIsSafe` | backend/src/jobs/queues.js:122-176 | kept by every step of any number of producers, workers and late commands: only the one active job is being executed, and every verdict of a call is right |
| `SingletonEnqueue.NeverTwoActive` | backend/src/jobs/queues.js:95-115 | a job with this id is never executed twice at once |
| `SingletonEnqueue.NormalReturnIsHonest` | backend/src/jobs/queues.js:127-176 | a call that returns normally saw the job active, or was handed the job that then holds the id and that is not older than the call; a NO-OP error means an older job holds it |
| `EnqueueLaws.HeldIff` | backend/src/jobs/queues.js:131-137 | a call is held iff its getState finds the job of the id active, and then reports that job |
| `EnqueueLaws.GoesOnIff` | backend/src/jobs/queues.js:128-156 | it goes on to the remove iff its getState finds anything else, and to the add iff getJob finds nothing or the remove has ended in any way |
| `EnqueueLaws.EndsIff` | backend/src/jobs/queues.js:155-176 | the add reports the job that holds the id, a new one iff it was free, and is an error iff that job is older than the call; a call is rejected iff its getJob, getState or add passes the deadline |
| `EnqueueLaws.WayThrough` | backend/src/jobs/queues.js:127-158 | in every run, a call past its getState had found the id free or the job not active, and a held call had been shown the job it reports while that ran |
| `EnqueueLaws.MadeOnlyPastInactive` | backend/src/jobs/queues.js:127-158 | in every run, a call makes a job, then or later, only if it had found the id free or the job not active |
| `EnqueueLaws.HeldMakesNone` | backend/src/jobs/queues.js:131-137 | a call that is held never makes a job |
| `SingletonEnqueue.RemovedMeansEnqueuedIff` | backend/src/jobs/queues.js:136-175 | after a remove that found its leftover removable the call is certain to end normally, whatever happens in between, iff no add older than the call is still on its way |
| `SingletonEnqueue.RejectedCallMakesJobIff` | backend/src/jobs/queues.js:59-93 | against the message "nothing was enqueued": a call rejected at getJob or getState never makes a job; one rejected at its add makes one iff that add lands while the id is free |
| `SingletonEnqueue.RejectedAddMayLand` | backend/src/jobs/queues.js:81-93 | the run in which it lands and its job runs |
| `SingletonEnqueue.EnqueuedKeepsIdIff` | backend/src/jobs/queues.js:136-158 | a job reported as enqueued still has the id when a worker next comes iff no remove, of a call or of one given up, is carried out in between |
| `SingletonEnqueue.EnqueuedMayBeReplaced` | backend/src/jobs/queues.js:127-158 | the run in which a slower producer that saw the leftover removes it and adds its own |
| `SingletonEnqueue.EnqueuedMayVanish` | backend/src/jobs/queues.js:141-158 | the run in which a producer on its own loses the job it reported to its own remove, given up and landing late |
| `Meter.Ledger.CheckMeter` | backend/src/models/database.js:1853-1897 | the answer of the check, the row it writes, and that the limit on new articles keeps holding |
| `Meter.NewArticlesAreBounded` | backend/src/models/database.js:1872-1896 | in no window of thirty days does a device open more than the limit of new articles |
| `Meter.RecentAreOpens` | backend/src/models/database.js:1873-1877 | the distinct recent articles are as many as the recent first opens |
| `Meter.OpenedIsFree` | backend/src/models/database.js:1879-1885 | an article once opened is free for ever |
| `Meter.ReadsSplit` | backend/src/routes/meter.js:11-12 | in every history and window the distinct articles a device reads are those opened in it for the first time and, apart from these, the old ones reread |
| `Meter.DistinctReadsIff` | backend/src/routes/meter.js:11-12 | so they stay within the limit iff the old articles reread are no more than the first opens of the window leave free |
| `Meter.DistinctReadsAreBounded` | backend/src/routes/meter.js:11-12 | they do in every window in which the device rereads nothing it had opened before the window |
| `Meter.NoRereadingIsBounded` | backend/src/routes/meter.js:11-12 | in particular in every window of a history in which no device reads an article twice |
| `Meter.RereadingExceeds` | backend/src/models/database.js:1879-1885 | for every limit a history, and a window of it, in which rereading one single article exceeds the limit |
| `Trackers.ValidateMetrics` | backend/src/models/trackers.js:147-166 | accepted iff the template is known and every entry is one it allows; the first wrong entry is the one reported |
| `Trackers.MergeOk` | backend/src/models/trackers.js:317-323 | merging into valid metrics is valid iff every update is valid in itself |
| `Trackers.MergeLooks` | backend/src/models/trackers.js:319 | in the merge a metric has its updated block, or else the one it had |
| `Trackers.ReplayRows` | backend/src/models/trackers.js:334-351 | the rows of an update, replayed over the metrics before it, give the metrics after it, and change no other tracker |
| `Trackers.EntryErrorMeans` | backend/src/models/trackers.js:147-166 | the error about an entry is true of it, and the checks before it are passed |
| `Trackers.LookupFinds` | backend/src/models/trackers.js:319 | looking a name up finds its entry, and nothing iff there is none |
| `Trackers.MergeKeepsPlaces` | backend/src/models/trackers.js:319 | merging keeps the old names where they were and puts new ones after them |
| `Trackers.RowsRemember` | backend/src/models/trackers.js:339-351 | each row of an update remembers the block its metric had just before it, or none |
| `Trackers.Store.CreateTracker` | backend/src/models/trackers.js:203-241 | created iff every check passes; the log of the new tracker is empty and replays to what was stored |
| `Trackers.Store.UpdateTrackerMetrics` | backend/src/models/trackers.js:299-356 | stored and logged together or not at all; refused iff the update is wrong in itself; afterwards every tracker is valid and is what its log replays to, every revision remembers what it replaced |
| `Trackers.Store.ArchiveTracker` | backend/src/models/trackers.js:372-387 | status and times change, metrics and log do not |
| `Trackers.StaleUpdateIff` | backend/src/models/trackers.js:311-353 | when another process wrote between read and write, row and log still agree iff that write touched only metrics this update sets |
| `Trackers.RowsRememberIff` | backend/src/models/trackers.js:339-351 | rows written from a view that may be stale remember the right previous blocks iff the view agrees with the log on every metric the update sets |
| `Trackers.StaleIsHarmlessIff` | backend/src/models/trackers.js:311-353 | revisions and row are both right iff the view was not stale at all |
| `Trackers.UpdateIsLost` | backend/src/models/trackers.js:311-353 | two processes set two metrics: both are in the log, one is gone from the row |
| `VideoPosts.VideoTable.ClaimVideoPost` | backend/src/models/database.js:2451-2464 | one more attempt, pending, and closed to selection for the hang threshold |
| `VideoPosts.VideoTable.FindFreshUnvideoedArticles` | backend/src/models/database.js:2750-2763 | exactly the open articles |
| `VideoPosts.VideoTable.MarkVideoFailed` | backend/src/models/database.js:2477-2482 | open again iff this was the first attempt |
| `VideoPosts.SelectMeans` | backend/src/models/database.js:2750-2763 | a cycle holds exactly the candidates without a row, failed once, or claimed once and silent for 45 minutes; a claim is one attempt more, pending from now |
| `VideoPosts.AttemptMeans` | backend/src/services/videoAutopost.js:2171-2196 | an attempt ends with a video on the channel and then its record, with a failure that takes no attempt back, or with a crash that records nothing |
| `VideoPosts.ClaimsAreBounded` | backend/src/models/database.js:2735-2763 | with n cycles in any interleaving an article is claimed at most n + 1 times: twice with one |
| `VideoPosts.ClaimsReachBound` | backend/src/models/database.js:2451-2464 | a run of n cycles with n + 1 claims |
| `VideoPosts.UploadedOnce` | backend/src/services/videoAutopost.js:2171-2196 | with any number of cycles: if claims are of articles still open, attempts are recorded within the hang threshold and no record is lost, an article is claimed at most twice and uploaded successfully at most once |
| `VideoPosts.PublishedIsFinal` | backend/src/models/database.js:2466-2475 | in such a run no step touches a published row |
| `VideoPosts.SingletonPublishedIsFinal` | backend/src/models/database.js:2750-2763 | cycles that do not overlap never claim an article again once it is published, nor touch its row, however long they take and whatever crashes |
| `VideoPosts.SingletonUploadsOnce` | backend/src/services/videoAutopost.js:1960-2196 | cycles that do not overlap meet the first condition by themselves |
| `VideoPosts.LostRecordUploadsAgainIff` | backend/src/models/database.js:2443-2450 | against the comment on the claim: when one cycle on its own loses the record of an upload, to a crash or because it cannot be written, another upload of the article may follow iff this was its first attempt |
| `VideoPosts.MayGoLiveIff` | backend/src/models/database.js:2750-2763 | an article no cycle is on or holds may reach the channel once more iff it is neither published nor claimed twice |
| `VideoPosts.CrashUploadsTwice` | backend/src/models/database.js:2443-2450 | the run: one cycle on its own, two uploads |
| `VideoPosts.StaleClaimIff` | backend/src/models/database.js:2451-2464 | in every careful run without a crash, the next claim may bring a second video iff the row says at that moment that the article is published or pending; for an article not yet claimed twice, iff it is no longer open |
| `VideoPosts.ClaimMayBeTwiceIff` | backend/src/models/database.js:2451-2464 | in every careful run: iff the article is live or another cycle is on it |
| `VideoPosts.StaleClaimUploadsTwice` | backend/src/models/database.js:2451-2464 | the run: two overlapping cycles, no crash, no time passing, two uploads |

## Left out

- Regular expressions, headline cleaning, token stemming and embeddings: fields of an article, with only the facts used
  (a name is a content word; a line fits the screen or is empty).
- Similarity by cosine is over real numbers, scores and outlet weights are integers, durations and clocks are whole
  milliseconds: floating-point rounding is not modelled.
- Outlet names in the order shown, attribution lines, one-sentence summaries, promo texts, Eastern time: wording only.
- The recursion of `find` is a method on the array that returns the root; the stack it needs in JavaScript is not modelled.
- Candidate loading, the rules layer before ranking and drop logging in `buildRadioState`: the build starts from ranked stories.
- The final display order of the film catalogue (`localeCompare`) and file reading: the catalogue starts from parsed sidecars.
- Content clearance of films, rehearsal arguments and ffmpeg command lines.
- A limiter setting below one request a minute: the limiter is modelled for one or more.
- RateWindow.RunKeepsLimit: asks that a millisecond passes between dispatches, because without it the code exceeds the
  limit, as LimitHoldsIff says.
- DailyCap.OvershootIsSmall: excludes database errors, on which the code lets the call through uncounted.
- LlmBreaker.ProbesPass: no other process writes to the day's count between the calls; what several do is DailyCap.
- LlmRetry.Client.RawCall: an error's status is the client library's own field; the fallback to the status of a nested
  response is not modelled. Other calls of the process do not run between its requests, because the pump is serial.
- Pump.Pump.Enqueue: the limiter's decision to wait is an input of the step, and its pause ends when the step Wake is taken.
- Which priority the callers choose; a low-priority call may wait as long as more urgent ones keep arriving.
- SQLite, Redis and BullMQ themselves: a transaction is atomic, a primary key refuses a second row, an add to a taken id
  returns the job there, a remove fails on an active job. A worker that loses its lock while still working is excluded.
- MigrationProtocol.RunIsSafe: the migrations' own SQL is a success or a failure that rolls back.
- MigrationRegistry.AssertRegistryIntact: a blank id is one of spaces, tabs and line ends only.
- SingletonEnqueue.EnqueuedMayVanish: a command given up may land after a later one of the same producer, as after a
  reconnect; that one connection keeps the order of its commands is not assumed.
- VideoPosts.UploadedOnce: asks that claims are of open articles and that no record is lost, because the code uploads
  twice otherwise; when exactly is StaleClaimIff and LostRecordUploadsAgainIff.
- VideoPosts.MayGoLiveIff: an article is also selected only while it is recent, so another upload may follow only until
  then; publication times are not part of the model.
- VideoPosts.LostRecordUploadsAgainIff: likewise, the upload that may follow follows only while the article is recent.
- Selection order, publisher cooldown and diversity of videos, and the cross-posts, which write other columns of a published row.
- Trackers.Store.UpdateTrackerMetrics: one process; what a second one does between read and write is StaleUpdateIff.
- Parent trackers, template metadata and provenance: stored as given.
- Meter.Ledger.CheckMeter: one process with a clock that does not go back.
- Routes, authentication, logging, heartbeats, price ledger, front end, the shot engine and the tile fetcher.
- The remaining read helpers of the database module.
