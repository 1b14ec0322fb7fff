# Coordination caches: models and proofs

A Dafny model of the coordination layer in `src/wybra/cache`: schedules, work queues, leases with
fencing tokens, atomic values, counters and streams. Each feature has an in-memory form. Most also
have a Redis form (Lua scripts over several keys) or a NATS JetStream form (compare-and-set
records). The in-memory classes are modelled as classes, the scripts as methods that take the keys
and give them back, and the concurrent protocols as state machines over their steps.

`dafny verify dfyconfig.toml` checks the whole project.

## What is proved

* **Schedules.** `ScheduleModel` is the store as callers see it. The in-memory class and the
  Redis scripts are each proved to simulate it, and `ScheduleRuns` joins them over whole runs, due
  reads included. `DueOrder` shows that the text of due times sorts as the times do.
  `RedisSchedulePages` proves the due script on that text, down to its repair branches, and says
  from the keys before a call when its page differs from the in-memory one. `RedisPaging` reads all
  due records through the script and says which ones the whole reading misses. `ScheduleHistory` says
  what the stores may answer from their earlier answers alone: above all, that a live claim excludes
  every other.
* **Work queues.** `WorkQueueModel`, `WorkQueueSteps` and `WorkQueueRuns` are the in-memory queue's
  machine, its invariant and its runs; the class in `MemoryQueue` carries its own run along, so all
  of it holds of the object. `RedisQueueModel` to `RedisQueueClaims` do the same for the Redis keys
  with any number of clients, readers between reading and issuing, and crashes. `NatsQueue` is one
  item's record with workers that interleave at every read and publication. `WorkQueueTimes` and
  `NatsSettlement` say that delays and settlements mean what was asked.
* **Fencing.** `LeaseFencing` interleaves tasks of the in-memory lease cache at every point where
  they can be suspended; `NatsFencing` interleaves coordinators that overlap, and
  `NatsOverlap` says exactly when one of their writes replaces the record it decided on.
  `LeaseExclusion` and `NatsAdmission` say when a lease may be granted and how it may end.
* **Counters, atomic values, streams, frames.** `NatsCounter`, `AtomicModel` with `MemoryAtomic`
  and `AtomicHistory`, `StreamModel` with `MemoryStreams` and `RedisStreams`, and `Frames`.

## Where the code falls short of the property

Each of these has a lemma showing a failing case and a lemma giving the exact condition.

* The Redis due page leaves out records whose expired claim is not yet recovered: beyond the first
  hundred expired claims, or in the part of a millisecond between the expiry of a claim key and its
  score. Exact condition: `RedisSchedulePages.PagesAgreeIffNoneOverlooked`, over whole runs
  `ScheduleRuns.StoresAgree`, over whole readings `RedisPaging.ListDue`. Failing cases:
  `ScheduleRuns.GapHidesARecord`, `RedisSchedulePages.MoreThanAHundredDiffer`.
* The Redis stream read returns one record more than its limit when the cursor is just before the
  oldest retained record (`RedisStreams.ReadStream`, `ExtraRecord`).
* A leased NATS swap is guarded by its lease only, so overlapping coordinators under one lease can
  replace a revision that is not the expected one. Exact condition:
  `NatsOverlap.WriteReplacesWhatItReadIffUndisturbed` with `DisturbedIffStoredBetween`. Failing run:
  `LeasedSwapRun`.
* A NATS acquisition can replace a live lease: its holder's renewal may be stored after the
  acquisition found the lease expired, and only the guard is compared on its write. Exact condition
  for replacing only what was found expired: `NatsAdmission.ReplacesIffNotOvertaken`; every way in
  which a lease can end: `LeaseIsExclusive`. Failing run: `LiveLeaseRun`.
* A NATS counter can count an increment twice after its command was dropped between taking effect
  and having its outcome recorded (`NatsCounter.CounterIsExactInEveryRun`,
  `DroppedCommandCanCountTwice`, `DoubleCountRun`).
* Removing a Redis consumer is a check and then a deletion. An entry read in between is stranded.
  Exact condition: `RedisQueueRuns.RemovalKeepsInvariantIffCareful`. What becomes of the entry:
  `CarelessRemovalStrands` and `StrandedForEver` without a receipt, `CarelessRemovalLoosens` and
  `LooseIsSettledOrStranded` with one. Failing run: `StrandingRun`.

## Assumptions

* Identities, receipts, tokens and operation identifiers drawn at random are new.
* One clock reading serves a whole in-memory operation or script. In-memory runs of schedules and
  atomic values have a non-decreasing clock; fencing and queue safety hold for any readings.
* Due times and deadlines are exact reals; recurring due times are rounded by an arbitrary function
  that the in-memory store and Redis share. Printing a due time with eighteen digits is assumed to
  keep the order of the storable numbers (as it does for doubles), not to be exact.
* A Redis script is one atomic step, and Redis removes a claim key no later than the claim's score.
* A waiting in-memory reserve wakes up when its sleep ends, and nobody else uses the queue while it
  sleeps.
* A NATS record expires its time to live after the stream's time stamp, and the stream drops it no
  earlier.
* In `NatsCounter` coordinators do not overlap, a command is redelivered before another is
  delivered, an outcome record outlives all duplicates of its command, and a publication that
  failed has either been stored by the time of the recovery read or never is. In `NatsQueue` the
  state record of the item is retained.

## Model

| member | source | states |
|---|---|---|
| DueOrder.EncodersAgree | src/wybra/cache/redis_schedule_scripts.py:6-24 | The Lua encoder and the Python encoder give the same 22 characters for every decimal of either sign and zero. |
| DueOrder.PythonIsCode | src/wybra/cache/redis_schedule_ordering.py:6-22 | The Python encoder, which takes the printed scientific text apart, gives the arithmetic code of the value. |
| DueOrder.CodeOrder | src/wybra/cache/redis_schedule_ordering.py:6-22 | Text order of codes is numeric order, both ways, and equal codes mean equal values: a strict order embedding. |
| DueOrder.MemberRoundTrip | src/wybra/cache/redis_schedule_ordering.py:25-27 | The identity comes back from a member even when it contains colons. |
| DueOrder.MemberOrder | src/wybra/cache/redis_schedule_ordering.py:25-27 | Members are ordered exactly by due time, then identity. |
| DueOrder.BoundaryAdmits | src/wybra/cache/redis_schedule_ordering.py:30-32 | A member sorts below the boundary member if and only if it is due by the boundary. |
| Recurrence.NextDueIsFirstOccurrenceAfterNow | src/wybra/cache/memory_schedules.py:329-346 | The next due time is the least previous + k * interval with k at least 1 that is strictly after now. |
| Recurrence.FormulasAgree | src/wybra/cache/redis_schedule_scripts.py:254-265 | The in-memory remainder formula, the Lua floor formula and the NATS floor formula give the same time for every input. |
| SortedSets.Smallest | src/wybra/cache/redis_schedule_scripts.py:120-132 | A range read with a limit returns the page of the smallest entries in order. |
| SortedSets.PageUnique | src/wybra/cache/redis_schedule_scripts.py:120-132 | A set and a limit have one page only. |
| SortedSets.PageWithout | src/wybra/cache/redis_schedule_scripts.py:116-168 | The page of a set with some entries removed equals the page of the whole set if and only if none of them is on it. |
| SortedSets.OnPageIffFewAhead | src/wybra/cache/redis_schedule_scripts.py:97-116 | An entry is on a page if and only if fewer entries than the limit come before it in the set. |
| SortedSets.PagingIsExact | src/wybra/cache/memory_schedules.py:143-171 | Pages that each start after the last entry of the one before list every entry exactly once, in order. |
| ScheduleModel.DuePagingIsExact | src/wybra/cache/memory_schedules.py:143-171 | Due pages taken with the last record as cursor list every record due by the boundary exactly once, by due time and identity. |
| ScheduleModel.StepKeepsSound | src/wybra/cache/memory_schedules.py:69-304 | Every operation keeps a claim attached to the revision of the record it was given for, and all counters above what they handed out. |
| ScheduleModel.StepRevisions | src/wybra/cache/memory_schedules.py:302-304 | Revisions only grow, and a write always gets a new one. |
| ScheduleModel.StepFencing | src/wybra/cache/memory_schedules.py:173-202 | Fencing tokens only grow, and a granted claim always gets a new one. |
| ScheduleModel.SpentClaimStaysSpent | src/wybra/cache/memory_schedules.py:268-290 | A claim that no longer holds never holds again, whatever operations follow. |
| ScheduleModel.SettlingSpends | src/wybra/cache/memory_schedules.py:204-266 | A claim that completed, discarded, advanced or released its record can never act again. |
| MemorySchedules.InMemoryScheduleCache.RecoverClaims | src/wybra/cache/memory_schedules.py:292-300 | Recovery removes exactly the expired claims and changes nothing a caller sees. |
| MemorySchedules.InMemoryScheduleCache.Create | src/wybra/cache/memory_schedules.py:69-100 | The outcome and the visible store are those of the model's create, including the record limit. |
| MemorySchedules.InMemoryScheduleCache.Update | src/wybra/cache/memory_schedules.py:102-135 | As the model's update: only on the expected revision and never under a live claim. |
| MemorySchedules.InMemoryScheduleCache.Delete | src/wybra/cache/memory_schedules.py:137-141 | As the model's delete, which drops the claim too. |
| MemorySchedules.InMemoryScheduleCache.Take | src/wybra/cache/memory_schedules.py:173-202 | As the model's claim: only a due, unclaimed record, under a new fencing token. |
| MemorySchedules.InMemoryScheduleCache.Complete | src/wybra/cache/memory_schedules.py:204-222 | As the model's complete: a recurring record moves to its next time, another one goes. |
| MemorySchedules.InMemoryScheduleCache.Discard | src/wybra/cache/memory_schedules.py:224-228 | As the model's discard. |
| MemorySchedules.InMemoryScheduleCache.Advance | src/wybra/cache/memory_schedules.py:230-253 | As the model's advance: new payload and due time for the holder only. |
| MemorySchedules.InMemoryScheduleCache.Held | src/wybra/cache/memory_schedules.py:255-261 | True exactly while the claim holds. |
| MemorySchedules.InMemoryScheduleCache.Release | src/wybra/cache/memory_schedules.py:263-266 | As the model's release. |
| MemorySchedules.InMemoryScheduleCache.Due | src/wybra/cache/memory_schedules.py:143-171 | The page holds exactly the first due, unclaimed records after the cursor. |
| RedisSchedules.Create | src/wybra/cache/redis_schedule_scripts.py:27-51 | The script keeps the nine keys coherent, and outcome and visible store are those of the model's create. |
| RedisSchedules.Update | src/wybra/cache/redis_schedule_scripts.py:53-78 | Keys stay coherent; simulates the model's update, reindexing the record under its new due time. |
| RedisSchedules.Delete | src/wybra/cache/redis_schedule_scripts.py:80-94 | Keys stay coherent; simulates the model's delete. |
| RedisSchedules.Take | src/wybra/cache/redis_schedule_scripts.py:171-210 | Keys stay coherent; simulates the model's claim, with a claim key that may expire before its score. |
| RedisSchedules.Release | src/wybra/cache/redis_schedule_scripts.py:212-228 | Keys stay coherent; simulates the model's release. |
| RedisSchedules.Complete | src/wybra/cache/redis_schedule_scripts.py:230-291 | Keys stay coherent; simulates the model's complete with the Lua recurrence. |
| RedisSchedules.Discard | src/wybra/cache/redis_schedule_scripts.py:293-312 | Keys stay coherent; simulates the model's discard. |
| RedisSchedules.Advance | src/wybra/cache/redis_schedule_scripts.py:314-341 | Keys stay coherent; simulates the model's advance. |
| RedisSchedules.Held | src/wybra/cache/redis_schedule_scripts.py:343-353 | Answers as the model does. |
| RedisSchedules.CoherentLater | src/wybra/cache/redis_schedule_scripts.py:171-210 | Expiry of claim keys alone never breaks coherence, and shows as expiry in the model. |
| RedisSchedulePages.TextInOrder | src/wybra/cache/redis_schedule_scripts.py:127-132 | Member text is ordered as due time and identity for every stored record. |
| RedisSchedulePages.RangeIsExact | src/wybra/cache/redis_schedule_scripts.py:127-132 | The lexicographic range between cursor and boundary holds exactly the members after the one and due by the other. |
| RedisSchedulePages.LexPageIsScorePage | src/wybra/cache/redis_schedule_scripts.py:120-132 | A page from the lexicographic index is the page the score index would give. |
| RedisSchedulePages.Recover | src/wybra/cache/redis_schedule_scripts.py:97-116 | Recovery relists the first hundred expired claims, keeps the keys coherent and changes nothing a caller sees. |
| RedisSchedulePages.ReadEntries | src/wybra/cache/redis_schedule_scripts.py:133-168 | On coherent keys every entry resolves to its own record: the repair branches are not taken. |
| RedisSchedulePages.IndexedIsExpected | src/wybra/cache/redis_schedule_scripts.py:120-132 | The indexes hold exactly what the model would list, less the records still hidden by an unrecovered claim. |
| RedisSchedulePages.Due | src/wybra/cache/redis_schedule_scripts.py:96-168 | The script's page is the model's page of the visible records less the hidden ones, nothing was repaired, and the keys stay coherent. |
| RedisSchedulePages.PageAgreesUnlessHidden | src/wybra/cache/redis_schedule_scripts.py:96-168 | The Redis page equals the in-memory page if and only if no hidden record is on the latter. |
| RedisSchedulePages.PagesAgreeIffNoneOverlooked | src/wybra/cache/redis_schedule_scripts.py:96-168 | Told from the keys before the call: the pages are equal if and only if no record on the in-memory page has a dead claim that this call does not recover, because its score is not reached or a hundred expired entries come before it. |
| RedisSchedulePages.PagesAgreeUpToAHundred | src/wybra/cache/redis_schedule_scripts.py:97-116 | With at most a hundred expired entries and every dead claim at its score the pages are equal, for every boundary, limit and cursor. |
| RedisSchedulePages.MoreThanAHundredDiffer | src/wybra/cache/redis_schedule_scripts.py:97-116 | With more than a hundred expired, unrecovered, due entries and a first page that has room for all records the pages are different: the hundred is exact. |
| RedisPaging.ListDue | src/wybra/cache/redis_schedule_scripts.py:96-168 | All due records read page after page through the script: the list is in order without repetition, only due records are on it, and a due record is missing if and only if it was still unrecovered after the call that went past it. |
| RedisPaging.ListDueUpToAHundred | src/wybra/cache/redis_schedule_scripts.py:96-168 | With at most a hundred expired claims the reading lists exactly the due records whose dead claim, if any, has reached its score, each once; with all scores reached, exactly the due records. |
| RedisPaging.SkippedIffHidden | src/wybra/cache/redis_schedule_scripts.py:97-116 | With at most a hundred expired entries, a record is skipped by the whole reading if and only if the first call leaves it unrecovered. |
| RedisPaging.SkippedWasWaiting | src/wybra/cache/redis_schedule_scripts.py:97-116 | Whatever the reading skips was left unrecovered by its first call. |
| RedisPaging.NothingHidden | src/wybra/cache/redis_schedule_scripts.py:97-116 | Nothing is left unrecovered when at most a hundred expired entries wait and every dead claim has reached its score. |
| ScheduleRuns.StoresAgree | src/wybra/cache/redis_schedule_scripts.py:27-353 | Over every run from the empty stores, due reads included and with claim keys that expire before their score: every other operation has the same outcome in both stores, and a due page is the same if and only if no record on the in-memory page is overlooked by that call. |
| ScheduleRuns.SameViews | src/wybra/cache/redis_schedule_scripts.py:27-353 | After every run both stores show the same records, claims and counters. |
| ScheduleRuns.RunSideBySide | src/wybra/cache/redis_schedule_scripts.py:27-353 | Executed side by side with a non-decreasing clock, the in-memory class gives the model's outcomes, the scripts give theirs, and no repair branch is taken in any call. |
| ScheduleRuns.GapHidesARecord | src/wybra/cache/redis_schedule_scripts.py:171-210 | A run of create, claim and due read, in which the claim key expires half a millisecond before its score: the in-memory page lists the record, the Redis page is another one. |
| ScheduleRuns.MemoryStep | src/wybra/cache/memory_schedules.py:69-266 | One operation on the in-memory store has the model's outcome, a due read the model's page. |
| ScheduleRuns.RedisStep | src/wybra/cache/redis_schedule_scripts.py:27-353 | One operation through the scripts has the script model's outcome and waiting claims, keeps the keys coherent and repairs nothing. |
| ScheduleHistory.MemoryIsLawful | src/wybra/cache/memory_schedules.py:69-304 | In every run every answer of the in-memory store, due pages included, is the one its earlier answers allow: a key has the record last stored under it, a claim is live from its grant until it expires, is settled by its own holder, or its record is deleted. No store state is mentioned. |
| ScheduleHistory.RedisIsLawful | src/wybra/cache/redis_schedule_scripts.py:27-353 | So is every answer of the scripts; their due pages differ only as `StoresAgree` says. |
| ScheduleHistory.RunLawfully | src/wybra/cache/redis_schedule_scripts.py:27-353 | The answers that the class and the scripts give when executed side by side are lawful. |
| ScheduleHistory.ClaimExcludes | src/wybra/cache/memory_schedules.py:173-202 | Between two grants of one key the first claim has expired, or the record was deleted, or that very claim was completed, discarded, advanced or released. |
| ScheduleHistory.ClaimExcludesInTime | src/wybra/cache/memory_schedules.py:173-202 | With a clock that never goes back: the second grant comes at or after the expiry of the first, or an answer in between ended it. |
| ScheduleHistory.OneLiveGrant | src/wybra/cache/memory_schedules.py:173-202 | A key has at most one live grant at any moment. |
| ScheduleHistory.GrantedIffDueAndIdle | src/wybra/cache/redis_schedule_scripts.py:171-210 | A claim is granted if and only if the record last stored is due and nobody has it; what is granted is that record. |
| LeaseFencing.StepKeepsInvariant | src/wybra/cache/memory_leases.py:64-174 | Every step of every task keeps lock counts, mutual exclusion, lock clean-up, the fence and token order. |
| LeaseFencing.RunKeepsInvariant | src/wybra/cache/memory_leases.py:64-174 | So does every interleaving of tasks, for any clock readings. |
| LeaseFencing.CommitsOnlyWithCurrentLease | src/wybra/cache/memory_atomic.py:191-204 | A fenced mutation commits only while its lease is the stored, unexpired entry of the resource. |
| LeaseFencing.FencingInEveryRun | src/wybra/cache/memory_leases.py:64-174 | In every run tokens of commits under one resource never decrease, tasks inside share one lock object per resource with at most one past it, the fence is not overtaken, and no idle lock outlives its lease. |
| LeaseFencing.CommitTokens | src/wybra/cache/memory_streams.py:192-205 | A fenced append or write keeps the order of tokens. |
| LeaseExclusion.StepLease | src/wybra/cache/memory_leases.py:64-174 | What every step does to the lease of every resource, from the table, the clock and the request: granted exactly when there is no live lease and room, renewed or released exactly by the live holder, dropped only after its time, otherwise untouched. |
| LeaseExclusion.LeaseIsExclusive | src/wybra/cache/memory_leases.py:64-106 | In every run a lease goes or is replaced only in a step that finds it expired or releases that very lease. |
| LeaseExclusion.LeasesFollowEachOther | src/wybra/cache/memory_leases.py:64-106 | Between two different leases of one resource the first one expired or was released by its holder. |
| LeaseExclusion.LeaseLastsAsAsked | src/wybra/cache/memory_leases.py:64-99 | Every stored lease ends at the clock reading plus the time to live of its grant or last renewal, unchanged since. |
| LeaseExclusion.LeasesWithinLimit | src/wybra/cache/memory_leases.py:161-174 | The table never holds more leases than the limit. |
| LeaseExclusion.FencedIffLive | src/wybra/cache/memory_leases.py:108-115 | A fenced mutation is let in if and only if it presents the live lease. |
| LeaseExclusion.CommittedIffLive | src/wybra/cache/memory_atomic.py:191-204 | And is applied if and only if that is still so in the step that applies it. |
| NatsFencing.RunKeepsInvariant | src/wybra/cache/nats_coordination.py:538-745 | Overlapping and stalled coordinators, increments among their commands, keep sequence bounds, lease order, what each coordinator has validated, and write order. |
| NatsFencing.FencingInEveryRun | src/wybra/cache/nats_coordination.py:538-709 | On each lease subject granted tokens never decrease, and neither do the tokens of leased writes. |
| NatsFencing.StoredOnlyUnderItsLease | src/wybra/cache/nats_coordination.py:781-840 | A leased create, swap or delete is stored only while the exact lease record it validated is the last on its subject. |
| NatsOverlap.RunKeepsAccounts | src/wybra/cache/nats_coordination.py:538-745 | In every run a coordinator that has read its key finds there what it read while undisturbed and something newer once disturbed; guards are unique, and only a leased store disturbs the holder of the last one. |
| NatsOverlap.WriteReplacesWhatItReadIffUndisturbed | src/wybra/cache/nats_coordination.py:649-681 | In every run of overlapping coordinators a stored write, leased or not, replaces the record it decided on (a swap or deletion: the revision it expected) if and only if nobody stored on its key since it read; under the guard header, if and only if no leased write did. |
| NatsOverlap.DisturbedIffStoredBetween | src/wybra/cache/nats_coordination.py:887-935 | That condition in terms of commands: between the read and the publication some command on the same key was stored. |
| NatsOverlap.LeasedSwapCanReplaceAnotherRevision | src/wybra/cache/nats_coordination.py:649-681 | A leased swap carries no guard: a continuation of every suitable state in which a swap is stored over a revision it did not expect. |
| NatsOverlap.LeasedSwapRun | src/wybra/cache/nats_coordination.py:649-681 | A run from the empty stream that ends that way. |
| NatsAdmission.GoesOnIffAllowed | src/wybra/cache/nats_coordination.py:538-745 | A command goes on from its read if and only if what is live on its key allows it: nothing for an acquisition or creation, the presented lease, the expected value, or a counter. |
| NatsAdmission.StoredWasAllowed | src/wybra/cache/nats_coordination.py:538-745 | In every run a stored command was allowed by the record it read, and leaves on its key the data and the lifetime it asked for. |
| NatsAdmission.LeaseIsExclusive | src/wybra/cache/nats_coordination.py:538-620 | A stored lease ends only when the stream drops it after its time, its holder releases it, or an acquisition replaces it that found it expired at its read; the one other way is an acquisition overtaken by a command on that lease between its read and its write. |
| NatsAdmission.LeasesFollowEachOther | src/wybra/cache/nats_coordination.py:538-620 | Between two different leases of one resource the first one ended in one of those ways. |
| NatsAdmission.ReplacesIffNotOvertaken | src/wybra/cache/nats_coordination.py:887-935 | A stored command that finds a record on its key replaces the one it read if and only if no command on the key was stored between its read and its write. |
| NatsAdmission.CreateReplacesNothingLive | src/wybra/cache/nats_coordination.py:622-647 | A creation that nothing overtook replaces nothing live at its read, and stores its payload for its time. |
| NatsAdmission.IncrementAddsItsAmount | src/wybra/cache/nats_coordination.py:711-745 | An increment moves the live counter it read by its amount, or starts at the amount. |
| NatsAdmission.LeaseWasLive | src/wybra/cache/nats_coordination.py:781-796 | A mutation under a lease is stored only over the very lease record that its coordinator found live and presented. |
| NatsAdmission.LiveLeaseRun | src/wybra/cache/nats_coordination.py:538-596 | A run from the empty stream, with a clock that never goes back, in which an acquisition is stored over a live lease that was renewed after the acquisition read it. |
| NatsCounter.StepKeepsInvariant | src/wybra/cache/nats_coordination.py:711-745 | Each coordinator step, crash, redelivery, expiry and foreign write keeps the counter equal to the sum of its distinct increments, unless it drops a command that took effect without an outcome. |
| NatsCounter.CounterIsExactInEveryRun | src/wybra/cache/nats_coordination.py:391-536 | In every such run a live counter is the sum of the increments since it last started from nothing, each once, and every recorded outcome is the running total at its increment. |
| NatsCounter.DroppedCommandCanCountTwice | src/wybra/cache/nats_coordination.py:439-503 | Wherever such a command is dropped (a failure reply on redelivery, or deliveries used up), one further increment and a duplicate make the counter count it twice. |
| NatsCounter.DoubleCountRun | src/wybra/cache/nats_coordination.py:439-503 | A run from the empty stream in which an increment of 1 is counted twice. |
| Frames.Pack | src/wybra/cache/nats_coordination.py:1187-1197 | Gives the frame, or refuses exactly the lists with more than 255 parts or a part of 2^32 bytes or more. |
| Frames.Unpack | src/wybra/cache/nats_coordination.py:1200-1222 | Gives the meaning of the bytes as a frame, or refuses. |
| Frames.RoundTrip | src/wybra/cache/nats_coordination.py:1187-1222 | Unpacking a packed list gives it back. |
| Frames.AcceptedIsCanonical | src/wybra/cache/nats_coordination.py:1200-1222 | Bytes are read as a list if and only if they are the frame of that list. |
| Frames.PackIsInjective | src/wybra/cache/nats_coordination.py:1187-1197 | Different lists have different frames. |
| WorkQueueSteps.StepKeepsInvariant | src/wybra/cache/memory_queues.py:87-348 | Every step of the queue keeps location, attempt bounds, publish order and all limits. |
| WorkQueueSteps.StepKeepsLocated | src/wybra/cache/memory_queues.py:87-315 | Every step keeps each item in exactly the one place its history says. |
| WorkQueueSteps.StepKeepsBounded | src/wybra/cache/memory_queues.py:250-315 | Waiting items have an attempt left, reserved and dead ones have used one to all; payloads and maximums never change. |
| WorkQueueSteps.StepKeepsOrder | src/wybra/cache/memory_queues.py:117-175 | First deliveries followed by the untouched waiting items are the undelayed items in publish order. |
| WorkQueueSteps.StepKeepsLimits | src/wybra/cache/memory_queues.py:330-356 | The item, dead-letter and queue limits hold. |
| WorkQueueRuns.RunKeepsInvariant | src/wybra/cache/memory_queues.py:87-348 | Location, attempt bounds, publish order and the item, dead-letter and queue limits hold after every step of every run. |
| WorkQueueRuns.EveryItemInExactlyOnePlace | src/wybra/cache/memory_queues.py:87-348 | In every run a published item is in exactly one of ready, delayed, in flight, dead, acknowledged, evicted. |
| WorkQueueRuns.FirstDeliveriesInPublishOrder | src/wybra/cache/memory_queues.py:117-175 | Items published without delay get their first delivery in publish order, whatever retries and promotions happen between. |
| WorkQueueRuns.ReceiptSettlesOnce | src/wybra/cache/memory_queues.py:304-315 | A receipt that settled is never used again by any later step. |
| WorkQueueRuns.SettledItemStaysSettled | src/wybra/cache/memory_queues.py:177-219 | Published items are never forgotten; acknowledged and evicted ones never come back. |
| WorkQueueRuns.NothingBeforeWakeUp | src/wybra/cache/memory_queues.py:317-328 | With nothing ready, nothing becomes deliverable before the wake-up time; from then on something is, unless only items out of attempts are. |
| WorkQueueRuns.PromoteKeepsDeliverable | src/wybra/cache/memory_queues.py:264-268 | Promotion does not change what can be delivered now. |
| WorkQueueRuns.RetryKeepsDeliverable | src/wybra/cache/memory_queues.py:270-284 | Recovery of an expired reservation does not change what can be delivered now. |
| WorkQueueTimes.EnqueuedGoes | src/wybra/cache/memory_queues.py:250-258 | An enqueued item is deliverable at once at the back of its queue, or exactly from its time on and behind all entries of the same time; nothing else becomes or stops being deliverable. |
| WorkQueueTimes.NeverBeforeItsTime | src/wybra/cache/memory_queues.py:264-268 | In every run an item published or retried with a delay is delivered only after the clock was read at or after the time asked for. |
| MemoryQueue.InMemoryWorkQueue.Publish | src/wybra/cache/memory_queues.py:87-115 | Succeeds exactly within the queue and item limits; the queue then has one more item to deliver exactly from the end of its delay on, and nothing else changes; the object stays in step with a run of the model. |
| MemoryQueue.InMemoryWorkQueue.TryReserve | src/wybra/cache/memory_queues.py:139-155 | One pass delivers if and only if something was deliverable at its start, and then the first item of the queue on its next attempt, reserved for exactly the timeout under a new receipt; a pass without a delivery changes nothing about what is deliverable from then on. |
| MemoryQueue.InMemoryWorkQueue.Reserve | src/wybra/cache/memory_queues.py:117-175 | The waiting loop delivers at the first moment at which something is deliverable, and comes back empty if and only if there is no such moment before its deadline. |
| MemoryQueue.InMemoryWorkQueue.Acknowledge | src/wybra/cache/memory_queues.py:177-182 | Succeeds exactly for a delivery that still holds its reservation, which it ends; queues, delayed items and dead letters stay as they were. |
| MemoryQueue.InMemoryWorkQueue.Renew | src/wybra/cache/memory_queues.py:184-198 | Moves the deadline of exactly such a delivery and nothing else. |
| MemoryQueue.InMemoryWorkQueue.Reject | src/wybra/cache/memory_queues.py:200-211 | While attempts are left the item is deliverable again exactly from the end of its delay on; otherwise it becomes the newest dead letter of its queue. |
| MemoryQueue.InMemoryWorkQueue.DeadLetter | src/wybra/cache/memory_queues.py:213-219 | The item of exactly such a delivery becomes the newest dead letter of its queue, the oldest going beyond the limit. |
| MemoryQueue.InMemoryWorkQueue.DeadLetters | src/wybra/cache/memory_queues.py:221-243 | Lists the oldest dead letters up to the limit. |
| MemoryQueue.InMemoryWorkQueue.PromoteDelayed | src/wybra/cache/memory_queues.py:264-268 | Moves exactly the entries that are due, in heap order, to the back of their queues. |
| MemoryQueue.InMemoryWorkQueue.RecoverExpired | src/wybra/cache/memory_queues.py:270-284 | Ends exactly the expired reservations; their items go to the back of their queues, or of the dead letters, in the order they were reserved, and what can be delivered does not change. |
| MemoryQueue.InMemoryWorkQueue.AppendDeadLetter | src/wybra/cache/memory_queues.py:298-302 | Appends and then evicts the oldest beyond the limit. |
| MemoryQueue.InMemoryWorkQueue.NextWakeUp | src/wybra/cache/memory_queues.py:317-328 | The least availability or deadline among the queue's delayed and reserved items. |
| RedisQueueSteps.StepKeepsInvariant | src/wybra/cache/redis_queues.py:44-280 | Every script and reader step keeps the queue invariant, provided a consumer is removed only with nothing pending. |
| RedisQueueSteps.NothingToRepair | src/wybra/cache/redis_queues.py:147-152 | A claim never finds a visible entry that is not pending. |
| RedisQueueSteps.UnissuedHasAttempts | src/wybra/cache/redis_queues.py:78-100 | An entry without a receipt has an attempt left, so issuing cannot exceed the maximum. |
| RedisQueueRuns.RunKeepsInvariant | src/wybra/cache/redis_queues.py:44-280 | The invariant holds throughout every such run of any number of clients. |
| RedisQueueRuns.EveryItemAccountedFor | src/wybra/cache/redis_queues.py:44-280 | Each published item is acknowledged, dead-lettered, or live and in exactly one of the stream and the delayed set, within its attempts. |
| RedisQueueRuns.ReceiptsCoverPending | src/wybra/cache/redis_queues.py:78-203 | Receipts and deadlines cover the same entries, all pending, and every delivered entry is pending. |
| RedisQueueRuns.ReplacedReceiptIsUseless | src/wybra/cache/redis_queues.py:204-280 | A receipt that was replaced or settled never settles or renews again. |
| RedisQueueRuns.RemovalKeepsInvariantIffCareful | src/wybra/cache/redis_queues.py:663-692 | Removing a consumer keeps the invariant if and only if nothing is pending for it. |
| RedisQueueRuns.CarelessRemovalStrands | src/wybra/cache/redis_queues.py:663-692 | Removing a consumer with a pending entry that has no receipt leaves the entry in the stream, delivered and pending for nobody. |
| RedisQueueRuns.CarelessRemovalLoosens | src/wybra/cache/redis_queues.py:663-692 | If the entry has a receipt, it keeps it but is pending for nobody. |
| RedisQueueRuns.LooseIsSettledOrStranded | src/wybra/cache/redis_queues.py:147-152 | Such an entry stays so until its holder settles it, or a claim that finds it due takes its receipt and strands it. |
| RedisQueueRuns.StrandingRun | src/wybra/cache/redis_queues.py:663-692 | A run from the empty queue (publish, read, remove) that strands an item. |
| RedisQueueRuns.StrandedForEver | src/wybra/cache/redis_queues.py:663-692 | Such an entry stays that way under every later step: its item is never delivered again. |
| RedisQueue.Publish | src/wybra/cache/redis_queues.py:44-59 | The item is last in the stream, or waits until exactly its delay is over; keys stay coherent. |
| RedisQueue.DueIdentities | src/wybra/cache/redis_queues.py:68-71 | The due identities, earliest first, up to the limit, and none left out below it. |
| RedisQueue.Promote | src/wybra/cache/redis_queues.py:65-77 | Moves exactly the due identities to the stream; when fewer than the limit, none due remains. |
| RedisQueue.Issue | src/wybra/cache/redis_queues.py:78-100 | Issues exactly when the entry is still the reader's, with an attempt from 1 to the maximum, the published payload and a deadline of exactly the timeout; keys stay coherent. |
| RedisQueue.Acknowledge | src/wybra/cache/redis_queues.py:204-216 | Acts exactly for the holder of the current receipt; the item leaves all keys and leaves no dead letter. |
| RedisQueue.Renew | src/wybra/cache/redis_queues.py:217-229 | Moves the deadline exactly for the holder of the current receipt. |
| RedisQueue.Reject | src/wybra/cache/redis_queues.py:230-261 | For the holder, the item is last in the stream or waits until exactly its delay is over, or becomes one dead letter exactly when no attempt is left. |
| RedisQueue.DeadLetter | src/wybra/cache/redis_queues.py:262-280 | For the holder, moves the item with payload and attempts to the dead letters. |
| RedisQueueClaims.Claim | src/wybra/cache/redis_queues.py:101-203 | Claims only a due or idle entry, keeps the keys coherent, hands out the next attempt within the maximum, and reports a resumable scan point when it has seen a full window. |
| RedisQueueClaims.Take | src/wybra/cache/redis_queues.py:139-203 | From the claim on, the branches for a missing entry, identity or payload are not taken. |
| RedisQueueClaims.Scan | src/wybra/cache/redis_queues.py:107-135 | A stretch of the scan finds an idle entry or shows that there is none in it. |
| RedisQueueClaims.ClaimExpired | src/wybra/cache/redis_queues.py:838-890 | Repeated from the start of the pending entries, the scan ends without a claim only when nothing is due or idle. |
| NatsQueue.ReservePlanSound | src/wybra/cache/nats_queues.py:396-485 | Whatever a reserving worker plans from the record it read is a move the item's life allows. |
| NatsQueue.OwnerPlanSound | src/wybra/cache/nats_queues.py:487-540 | Whatever is planned for a delivery is allowed, and only while it owns the record. |
| NatsQueue.MarkPlanSound | src/wybra/cache/nats_queues.py:643-690 | Marking dead is planned only once the dead letter is written. |
| NatsQueue.StepKeepsInvariant | src/wybra/cache/nats_queues.py:396-690 | Every read, publication, lost acknowledgement and crash of any worker keeps the invariant, also when another worker removed the message meanwhile. |
| NatsQueue.LifeOnlyMovesOn | src/wybra/cache/nats_queues.py:396-540 | In every run attempts never fall and never exceed the maximum; acknowledged and dead are final; dead-pending only becomes dead. |
| NatsQueue.NoActionAfterTakeover | src/wybra/cache/nats_queues.py:206-281 | A delivery that lost its item never owns it again, and nothing done for it is accepted. |
| NatsQueue.OnlyTheOwnerActs | src/wybra/cache/nats_queues.py:861-867 | A settlement, renewal or release is accepted only while its delivery owns the record. |
| NatsQueue.NothingIsLost | src/wybra/cache/nats_queues.py:608-690 | The work message stays until the item is acknowledged or dead, a dead item has its dead letter with its attempts, and a dead letter is never written for an item still to be delivered. |
| NatsSettlement.ChangeIsAnswer | src/wybra/cache/nats_queues.py:396-690 | In every run the record changes only in answer to a request of the publishing worker, made on that very record by somebody entitled to it, and becomes what was asked: attempt, receipt, deadline or delay. |
| NatsSettlement.AcknowledgedIffAsked | src/wybra/cache/nats_queues.py:243-248 | An item is acknowledged if and only if its owner's acknowledgement was accepted. |
| NatsSettlement.BuriedIffAsked | src/wybra/cache/nats_queues.py:250-281 | An item goes to the dead letters if and only if a dead-lettering by its owner, a rejection of its last attempt or a reserve without attempts left was accepted. |
| NatsSettlement.ItemEndsAsAsked | src/wybra/cache/nats_queues.py:243-281 | A dead letter is written only for an item sent there; an acknowledged item never has one; once the message is gone the item was acknowledged without a letter, or sent to the dead letters and has its own. |
| NatsSettlement.DeliveredOnlyWhenAvailable | src/wybra/cache/nats_queues.py:396-485 | A delivery is handed out only by a reserve that found the item available: not before the delay of its publish or rejection, nor while another delivery is visible. |
| NatsSettlement.ReservesWhatIsAvailable | src/wybra/cache/nats_queues.py:396-485 | A reserve goes on to deliver or bury if and only if the item it read is available. |
| NatsSettlement.WorkerFinishesItem | src/wybra/cache/nats_queues.py:608-690 | A worker whose publication is confirmed goes on to remove the message of a finished item, or to write the letter of a buried one. |
| AtomicModel.RevisionsAreNeverReused | src/wybra/cache/memory_atomic.py:180-182 | Later writes have larger revisions, on whatever keys, across deletion, expiry and re-creation. |
| AtomicModel.SuccessMeansUntouched | src/wybra/cache/memory_atomic.py:83-126 | A successful swap or deletion against a write's revision is on its key, with no write to the key in between. |
| AtomicModel.NoWriteBetween | src/wybra/cache/memory_atomic.py:83-126 | A key that still has an old revision was not written since. |
| MemoryAtomic.InMemoryAtomicCache.Get | src/wybra/cache/memory_atomic.py:49-57 | Answers as the store that forgets at the instant of expiry. |
| MemoryAtomic.InMemoryAtomicCache.Create | src/wybra/cache/memory_atomic.py:59-81 | Answers and changes as that store does, full or not. |
| MemoryAtomic.InMemoryAtomicCache.CompareAndSwap | src/wybra/cache/memory_atomic.py:83-108 | Answers and changes as that store does. |
| MemoryAtomic.InMemoryAtomicCache.CompareAndDelete | src/wybra/cache/memory_atomic.py:110-126 | Answers and changes as that store does. |
| MemoryAtomic.InMemoryAtomicCache.Increment | src/wybra/cache/memory_atomic.py:128-157 | Answers and changes as that store does, full or not. |
| MemoryAtomic.InMemoryAtomicCache.LiveEntry | src/wybra/cache/memory_atomic.py:159-164 | Drops an expired entry without changing what is seen. |
| MemoryAtomic.InMemoryAtomicCache.EnsureCapacity | src/wybra/cache/memory_atomic.py:166-178 | Drops expired entries without changing what is seen; refuses exactly when the live entries fill the store. |
| MemoryAtomic.RunLazily | src/wybra/cache/memory_atomic.py:49-182 | Over every sequence of operations with a non-decreasing clock the lazy cache gives the answers of the eager store. |
| AtomicHistory.EveryAnswerIsLawful | src/wybra/cache/memory_atomic.py:49-182 | In every run every answer is the one the earlier answers allow: reads give what the last unexpired write put there, increments add to it, comparisons look at its revision, and the limit counts what is live. |
| AtomicHistory.RunLawfully | src/wybra/cache/memory_atomic.py:49-182 | The same of the answers the lazy cache itself gives in every run with a non-decreasing clock. |
| StreamModel.ConsumerSeesNoGap | src/wybra/cache/memory_streams.py:99-143 | A consumer that reads from its checkpoint, acknowledges the last record and repeats receives every later position once, in order, whatever is appended meanwhile. |
| StreamModel.FirstPollIsGapless | src/wybra/cache/memory_streams.py:172-190 | A consumer without a checkpoint starts at the oldest retained record. |
| StreamModel.ExpiredIffDropped | src/wybra/cache/memory_streams.py:172-190 | A read reports expiry if and only if the next position is no longer retained. |
| StreamModel.ReadListsNextPositions | src/wybra/cache/memory_streams.py:172-190 | A read that is not expired lists a retained position if and only if it is after the cursor and fewer than the limit come before it, in order and with the payload appended there. |
| MemoryStreams.InMemoryStreamCache.Append | src/wybra/cache/memory_streams.py:59-84 | Gives the next position within the limits; exactly the last records of the log are retained as a contiguous run. |
| MemoryStreams.InMemoryStreamCache.ReadAfter | src/wybra/cache/memory_streams.py:172-190 | Gives the model's read of the log. |
| MemoryStreams.InMemoryStreamCache.ReadConsumer | src/wybra/cache/memory_streams.py:99-112 | Reads after the consumer's checkpoint. |
| MemoryStreams.InMemoryStreamCache.AcknowledgeUpTo | src/wybra/cache/memory_streams.py:114-143 | A checkpoint moves to an existing position not before it, within the consumer limit, or not at all. |
| MemoryStreams.InMemoryStreamCache.ForgetConsumer | src/wybra/cache/memory_streams.py:145-156 | Removes exactly that checkpoint. |
| MemoryStreams.Consume | src/wybra/cache/memory_streams.py:99-143 | The consumer loop on the class itself: reading, acknowledging the last record and repeating, while others append, receives every position after the checkpoint once, in order, and the checkpoint is the last one received. |
| DecimalText.CompareIsNumeric | src/wybra/cache/redis_stream_scripts.py:3-19 | On canonical decimal text of any length the comparison is the numeric one, and equal numbers have equal text. |
| DecimalText.Increment | src/wybra/cache/redis_stream_scripts.py:45-63 | On canonical decimal text of any length the result is the canonical text of the successor. |
| RedisStreams.AppendScript | src/wybra/cache/redis_stream_scripts.py:21-40 | Appends if and only if no lease is presented or exactly it is stored; then gives the next position, retains exactly the last records of the log and renews the expiry, otherwise changes nothing. |
| RedisStreams.ReadScript | src/wybra/cache/redis_stream_scripts.py:73-98 | Reports a cursor as gone exactly when the position after it is before the oldest entry. |
| RedisStreams.ReadStream | src/wybra/cache/redis_stream_scripts.py:73-98 | Cut to the limit, the records are those of the in-memory read; one more than the limit comes back if and only if the cursor is just before the oldest retained record and more than the limit is retained. |
| RedisStreams.ExtraRecord | src/wybra/cache/redis_stream_scripts.py:86-97 | A concrete stream and cursor with one record too many. |
| RedisStreams.AcknowledgeScript | src/wybra/cache/redis_stream_scripts.py:101-122 | Decides as the in-memory acknowledgement. |

## Left out

- Publish/subscribe, single-flight fill, site composition, configuration and scopes: thin wrappers or wiring.
- Connection start-up, readiness, stream-configuration checks and provider time calibration: foreign calls; a clock value is a parameter.
- Validation of arguments (resource names, positive times, payload types): inputs are taken as already valid.
- Floating-point effects of due times: `nextafter`, the smallest-step fallback, overflow and printed round trips.
- JSON and base64 forms of NATS states: states are values.
- The NATS schedule store, apart from its recurrence formula.
- Leased stream append in NATS: it checks the lease and publishes without an expected sequence, so it has no fencing property to prove.
- Removal of NATS terminal states after their time to live, the JetStream duplicate window and approximate trimming of Redis dead letters and signals.
- The Redis promoter task, consumer registration and idle-consumer search: they decide when steps happen, not what a step does.
- Task cancellation in the queues, and notifications between tasks waiting for the same queue.
- Order of identities in the Redis indexes is by character, where Redis compares encoded bytes.
- LeaseFencing.StepKeepsInvariant: the lease cache is modelled as steps of interleaved tasks rather than as one object's methods, since its properties are about their interleavings.
- MemoryQueue.InMemoryWorkQueue.Reserve: does not let other operations run while the loop sleeps; a notification only starts another pass, which `TryReserve` covers from any state.
- RedisSchedules.Take: does not fix how far before its score the claim key expires; any distance is allowed.
- RedisPaging.ListDue: takes all pages at one clock reading, with no other operation in between.
- RedisQueueClaims.ClaimExpired: states completeness of the scan for a scan that nothing interrupts.
- NatsQueue.NothingIsLost: covers an item whose work message is well formed; a malformed message is terminated by the code.
