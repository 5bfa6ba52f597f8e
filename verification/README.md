# A verified model of the shop backend's concurrent protocols

The shop keeps its promises across a database, a message broker, Redis and object storage, with
processes that may crash between any two steps. This project models those protocols in Dafny and
proves what they guarantee over every run. `dafny verify dfyconfig.toml` checks all of it.

Two shapes recur. A module that ends in `Service`, or a class inside a module, follows one
component statement by statement, updating its fields as the source does, and is proved against a
function of the old state. The other modules are state machines: a total step function, a run that
folds it over any list of steps (a step that is not enabled changes nothing), and theorems about
every run. Brokers, Redis, storage, clocks and crashes are steps, so every behaviour of theirs is
covered. Money is integer cents. Random ids, tokens and ETags are fresh values.

| file | what it models |
|---|---|
| `Checkout`, `CheckoutService`, `CheckoutInterleaving` | placing an order: what one transaction does, the transaction as written, and any number of them interleaved statement by statement under row locks |
| `Relay` | the outbox relay: claiming, publishing, marking, draining |
| `Consumer` | the two-level deduplication and the acknowledgement after the effect |
| `Pipeline`, `PipelineRecovery`, `PipelineServices` | checkouts, any number of relays, the broker with its delivery limit, any number of consumers, and crashes, as one machine; and that the relay and the consumer as written take its steps |
| `CacheAside`, `CacheService` | single-flight cache-aside for one key: any number of concurrent calls, and one call as written |
| `RefreshFamilies`, `AuthService`, `Denylist` | refresh-token rotation with reuse detection, the service as written, and the denylist over time |
| `Limits`, `Multipart`, `FilesService` | multipart arithmetic, resuming, and the life of a file under any number of commits |
| `RateLimit` | the sliding-window limiter and its client |
| `Retry` | whole-transaction retry over snapshot isolation |
| `QueueWorker` | the SKIP LOCKED worker pool |
| `OrderEvents`, `Cursor` | the replay buffer of status events, and page cursors |

## Where the promise holds, exactly

Some promises hold only under a condition. Each is proved in both directions.

- **A commit retried after a crash.** A comment at `src/files/files.service.ts:176` says a missing
  upload is tolerated because HeadObject will tell the truth. But the listing at line 151 stands
  outside that `try`, so a later commit fails there first. `FilesService.CompletableIff` says exactly
  which files can still become COMPLETED; `FilesService.CrashStrands` reaches, for every size, a file
  whose object is whole and which never can.
- **The rate limit.** A limiter that fails open, which is the default, lets everyone in while Redis
  is unreachable, under any limit: callers let through are limited in every run exactly when it fails
  closed (`RateLimit.LimitsIff`). In runs in which Redis answers every call, exactly when the limit is
  positive or it fails closed (`RateLimit.AnsweredLimitsIff`): with a limit of zero the script reads
  the first element of an empty range and fails.
- **At most `maxAttempts` bodies.** The body always runs once: `Retry.AtMostIff`.
- **Calls that threw contributed nothing.** Not when the answer to COMMIT is lost:
  `Retry.ThrownContributesIff`; `Retry.LostAnswer` shows such a call.
- **Logged-out tokens.** `authenticate` asks the denylist after an `await`, so time and a purge can
  come between. `Denylist.LoggedOutGetsInIff`: a logged-out token can be let in if and only if the
  question comes later than its own exp; `Denylist.LateAcceptance` reaches such calls.
- **Following next_cursor.** From any point of any walk it comes to an end, once the list stays as it
  is, only with a positive limit or an empty list: `Cursor.WalkEndsIff`. A list that grows as fast as
  it is read need never end.
- **Replay after a reconnect.** Without gap or repeat exactly while the id is within the last hundred
  and not from the future: `OrderEvents.SeamlessIff`.

## Model

| member | source | states |
|---|---|---|
| Checkout.OutcomeIff | src/checkout.ts:88-140 | a call places an order if and only if its key is free, stock >= quantity > 0 and the buyer's balance >= price * quantity >= 0; it is refused for stock, or for funds, exactly when those fail, in that order |
| Checkout.PlacedWrites | src/checkout.ts:113-193 | what placing an order writes to each of the seven tables, field by field |
| Checkout.LogDeserved | src/checkout.ts:88-198 | every call of every legal sequence got the outcome the tables at its turn call for |
| Checkout.SerialKeeps | src/checkout.ts:112-197 | over any sequence of checkouts, stock plus quantities sold and balance plus order totals never change, nothing goes negative, and each order has one item, one job, one outbox row |
| Checkout.PlaceConserves | src/checkout.ts:112-137 | one checkout, whatever its outcome, creates and destroys neither goods nor money |
| Checkout.PlaceKeepsSound | src/checkout.ts:149-193 | one checkout keeps stock and balance non-negative, the rows of every order aligned, and every key pointing to an order |
| Checkout.OnlyPlacedChanges | src/checkout.ts:121-140 | a checkout changes the tables if and only if it placed an order |
| Checkout.KeyPlacesOnce | src/checkout.ts:88-109 | after a call that placed an order, every later call with its key replays that order's id and total |
| Checkout.LookupNeverFails | src/checkout.ts:96-106 | the replay lookup of a taken key always finds its order |
| Checkout.KeyTakenIff | src/checkout.ts:84-88 | after any sequence of checkouts a key is taken exactly when it was at the start or a call with it placed an order |
| CheckoutService.Database.ClaimKey | src/checkout.ts:89-94 | claims a key exactly when nobody has it, and else changes nothing |
| CheckoutService.Database.DecrementStock | src/checkout.ts:113-124 | takes the quantity and returns the price if and only if the stock suffices |
| CheckoutService.Database.DecrementBalance | src/checkout.ts:129-140 | takes the total if and only if the balance suffices |
| CheckoutService.Database.InsertOrder | src/checkout.ts:149-155 | appends the order unless its CHECK fails; the identity value is spent either way |
| CheckoutService.Database.FindPlaced | src/checkout.ts:95-108 | answers with the committed order the key points to, and fails exactly when there is none |
| CheckoutService.Database.ClaimOrReplay | src/checkout.ts:88-110 | a replay exactly when some committed order has the key, and else the key is claimed |
| CheckoutService.Database.WriteRows | src/checkout.ts:157-193 | item, job, key and outbox row together, or none when the quantity CHECK fails |
| CheckoutService.Database.Spend | src/checkout.ts:112-193 | the statements after the key claim place the order exactly when stock, funds and the checks allow, and write what the atomic checkout writes |
| CheckoutService.Database.Rollback | src/checkout.ts:102-201 | puts back every table, though not the identity sequence |
| CheckoutService.Database.PlaceOrder | src/checkout.ts:74-205 | the whole call: each outcome if and only if the tables call for it, tables and sequence as after the atomic checkout; a failing hook rolls everything back, and a COMMIT whose answer is lost throws with the order placed |
| CheckoutInterleaving.EveryRunIsSerial | src/checkout.ts:74-205 | every statement-level interleaving has the effect and the outcomes of some serial order of atomic checkouts |
| CheckoutInterleaving.EveryRunConserves | src/checkout.ts:112-197 | conservation and soundness of the committed tables at every instant of every interleaving |
| CheckoutInterleaving.OutcomesDeserved | src/checkout.ts:88-198 | in every interleaving each settled call got the outcome that the tables committed at its place in the serial order call for |
| CheckoutInterleaving.LookupsSucceed | src/checkout.ts:96-106 | in every interleaving no call ends with a failed replay lookup |
| CheckoutInterleaving.OneOrderPerKey | src/checkout.ts:88-110 | two concurrent calls with one key never both place; the other replays the same id and total |
| CheckoutInterleaving.KeyTakenForever | src/checkout.ts:88-110 | after a call placed or replayed, none with that key places another order |
| CheckoutInterleaving.KeyTakenIffPlaced | src/checkout.ts:84-94 | in every interleaving a committed key belongs to a call that placed an order, and an uncommitted claim to an unfinished call with that key |
| CheckoutInterleaving.FailureFreesKey | src/checkout.ts:199-201 | once every call with a key has ended without an order, by refusal, rollback or crash, the next one claims it at once |
| CheckoutInterleaving.NoDeadlock | src/checkout.ts:15-18 | in every reachable state no chain of lock waits returns to its start |
| CheckoutInterleaving.SomeoneMoves | src/checkout.ts:15-18 | while any checkout is unfinished, some unfinished one can make a step |
| CheckoutInterleaving.PublishKeeps | src/checkout.ts:197-198 | publishing a transaction's buffer at COMMIT equals running that checkout atomically then |
| CheckoutInterleaving.OthersUnaffected | src/checkout.ts:112-140 | a commit leaves the buffered writes of every other lock holder valid |
| Relay.Publisher.PublishRaw | src/outbox/relay.ts:74-84 | an error says nothing about delivery: the broker may have kept the message |
| Relay.EligibleComplete | src/outbox/relay.ts:59-66 | the rows claimed are in index order and are exactly the unpublished rows nobody else holds |
| Relay.PassMeans | src/outbox/relay.ts:59-98 | a pass claims the first LIMIT of the eligible rows, or all; told row by row and message by message |
| Relay.DrainMeans | src/outbox/relay.ts:110-122 | a drain without a failure publishes every eligible row, one attempt each, and sends its event once, in index order |
| Relay.WalkRows | src/outbox/relay.ts:72-98 | exactly the prefix before a failure is published, the failed row gains one attempt, the rest is untouched |
| Relay.WalkStops | src/outbox/relay.ts:72-84 | a pass stops at the broker's first answer that is not a confirm, and only there |
| Relay.WalkSends | src/outbox/relay.ts:74-87 | the broker is left with a prefix of the claimed events, in order, once each; one more if only a confirm was lost |
| Relay.EligibleAfterWalk | src/outbox/relay.ts:89-99 | after a pass that went through, exactly the rest of the rows is eligible |
| Relay.WalksJoin | src/outbox/relay.ts:116-121 | two passes in a row equal one pass over both batches |
| Relay.DrainStep | src/outbox/relay.ts:116-121 | a batch ends a drain where one pass over everything ends, or takes it just as far as it claimed |
| Relay.OutboxRelay.PublishAll | src/outbox/relay.ts:69-87 | the loop returns the confirmed prefix and the row that failed, as the pass specification says |
| Relay.OutboxRelay.RelayOnce | src/outbox/relay.ts:48-107 | one transaction: claimed is the lesser of the batch size and the eligible rows, the published ones are the first of them, each row's marks and attempts and the messages kept are told one by one; on rollback nothing is marked, and on a COMMIT whose answer is lost it throws with the marks made |
| Relay.OutboxRelay.RelayUntilEmpty | src/outbox/relay.ts:110-122 | terminates; with a positive batch size the drain is one pass over every eligible row and returns their number; with zero it returns 0 and relays nothing |
| Consumer.ApplyKeeps | src/messaging/consumer.ts:60-81 | after a delivery its order has its one receipt, older receipts stand, and a mark implies a receipt |
| Consumer.ReceiptsAreDeliveries | src/messaging/consumer.ts:52-81 | however often events are redelivered and inbox rows deleted, the receipts are one for each order delivered, and no others |
| Consumer.MarkedIff | src/messaging/consumer.ts:63-70 | over any deliveries and deletions an event is marked if and only if it was delivered and its mark not deleted since |
| Consumer.OrderConsumer.ApplyOrderPlaced | src/messaging/consumer.ts:60-81 | the inbox mark is always left; true, with the event's receipt added, exactly when neither the inbox nor either unique index knew it |
| Consumer.OrderConsumer.Handle | src/messaging/consumer.ts:95-131 | acknowledges only after mark and receipt, rejects malformed bodies for good, requeues when the transaction throws, whether or not it took effect; a closed channel on each path; the counters count exactly that |
| Pipeline.EveryRunKeepsInv | src/outbox/relay.ts:48-107 | one invariant across tables, relays, broker and consumers holds in every run with crashes anywhere |
| Pipeline.ApplyKeepsInv | src/messaging/consumer.ts:95-131 | each step of each component keeps that invariant |
| Pipeline.NoEventIsLost | src/checkout.ts:178-197 | every committed order has an unpublished outbox row, a live or dead-lettered copy of its event, or its receipt |
| Pipeline.NoEffectIsDoubled | src/messaging/consumer.ts:60-81 | receipts are unique and real: each has a committed order's id, buyer and total; a mark or an acknowledgement implies a receipt |
| Pipeline.RelaysAreSafe | src/outbox/relay.ts:59-99 | no row is held by two relays, and a row is marked only after a confirm |
| Pipeline.DeadLettersAreExhausted | src/messaging/topology.ts:24-51 | a live message was returned fewer than five times; an outbox event is dead-lettered only at the fifth |
| Pipeline.MarkedIff | src/messaging/consumer.ts:63-70 | in every run with crashes an event is marked if and only if it was applied and no cleaning has removed its mark since |
| Pipeline.ExactlyOnceResult | src/messaging/consumer.ts:95-131 | once outbox and queues are empty with nothing dead-lettered, the receipts' order ids are exactly the orders', as multisets |
| Pipeline.ClaimKeeps | src/outbox/relay.ts:59-67 | claiming any unpublished rows nobody holds, in whatever order, keeps batches disjoint |
| Pipeline.PublishKeeps | src/outbox/relay.ts:73-87 | a publish with any answer keeps the invariant |
| Pipeline.CommitBatchKeeps | src/outbox/relay.ts:89-99 | marking the confirmed prefix keeps the invariant |
| Pipeline.HandleKeeps | src/messaging/consumer.ts:99-117 | handling a message, well formed or not, keeps the invariant |
| Pipeline.AcknowledgeKeeps | src/messaging/consumer.ts:119-121 | removing a message after its effect loses no order |
| PipelineServices.RelayPassIsRun | src/outbox/relay.ts:59-103 | a pass of the relay is the run claim, publish each, commit or crash: same outbox, and the broker keeps the same messages |
| PipelineServices.RelayBeside | src/outbox/relay.ts:48-107 | so is the relay method itself, run beside the machine |
| PipelineServices.DeliveryIsRun | src/messaging/consumer.ts:95-131 | a delivery, with each fate of its transaction and channel, is a run of deliver, handle, and acknowledge, requeue or crash |
| PipelineServices.HandleBeside | src/messaging/consumer.ts:95-131 | so is the handler itself: its ledger is the machine's and the broker does with the message what its reply says |
| PipelineRecovery.CanAlwaysSettle | src/outbox/relay.ts:110-122 | from every reachable state, whoever has crashed, everything can still be published and delivered with no further event dead-lettered, and every order then has its receipt unless it had a dead-lettered copy already |
| PipelineRecovery.SettledMeans | src/messaging/topology.ts:44-53 | then every order has its receipt unless a copy of its event ran out of redeliveries |
| PipelineRecovery.PublishOne | src/outbox/relay.ts:59-99 | claim, confirm and mark reduce the waiting rows by one |
| PipelineRecovery.ConsumeOne | src/messaging/consumer.ts:109-121 | any live message can be brought to its acknowledgement |
| CacheAside.LoadsAreBounded | src/redis/cache.ts:83-124 | in every interleaving load runs at most once, plus once for each fault (expired lock, eviction, Redis failure, waiter timeout, crash, empty or failed load) |
| CacheAside.SingleFlight | src/redis/cache.ts:83-124 | without faults load ran at most once and all finished calls returned its one value |
| CacheAside.ReturnsAreLoaded | src/redis/cache.ts:68-76 | whatever goes wrong, a returned value came from a load of this key |
| CacheAside.ValuesComeFromLoads | src/redis/cache.ts:120-124 | so did every cached and every half-written value |
| CacheAside.OnlyTheOwnerUnlocks | src/redis/cache.ts:34-39 | a lock disappears only by expiry or by the call whose token it holds, and is never overwritten |
| CacheAside.ApplyKeepsBudget | src/redis/cache.ts:83-118 | each step keeps loads, calls bound to load and a vacant entry within one plus the faults |
| CacheService.Cache.Fill | src/redis/cache.ts:120-124 | loading and writing are the machine's own steps |
| CacheService.Cache.Lead | src/redis/cache.ts:96-106 | the lock holder rereads, fills if need be and unlocks on every path |
| CacheService.Cache.Release | src/redis/cache.ts:34-39 | only a lock that still holds this call's token goes |
| CacheService.Cache.Wait | src/redis/cache.ts:108-117 | a waiter polls until a look is answered with a value, and then returns it without loading; it loads for itself only after exactly the polls it has time for |
| CacheService.Cache.Contend | src/redis/cache.ts:89-117 | whoever takes the lock leads and everyone else waits, with the lock each leaves behind |
| CacheService.Cache.Get | src/redis/cache.ts:83-118 | a whole call, with any answers of Redis, is a run of the machine that ends in its result; it returns what is cached, without loading, whenever some look at the cache is answered, and else what load gave; entry and lock are told in each case |
| RefreshFamilies.OneLiveToken | src/auth/auth.service.ts:77-132 | in every run a family has at most one live token; an unrevoked family has exactly one, its newest; all its rows share a user |
| RefreshFamilies.RefreshMeans | src/auth/auth.service.ts:77-132 | a refresh yields a pair if and only if the token is known, not revoked, not used, not expired and its user exists; the pair carries on the family and user, with these expiries |
| RefreshFamilies.LoginMeans | src/auth/auth.service.ts:60-71 | the pair and the row of a login |
| RefreshFamilies.LogoutMeans | src/auth/auth.service.ts:147-160 | a logout revokes the family's rows and denies the token until its own exp |
| RefreshFamilies.PurgeMeans | src/auth/auth.service.ts:186-189 | a purge removes exactly the denied tokens whose exp has passed |
| RefreshFamilies.DeniedIff | src/auth/auth.service.ts:155-189 | in every run a token is denied if and only if it was logged out and no purge has come since at a time past its exp |
| RefreshFamilies.RevokedIff | src/auth/auth.service.ts:98-115 | in every run a family is revoked exactly when an exchanged token of it was presented again or it was logged out |
| RefreshFamilies.KilledYieldsNothing | src/auth/auth.service.ts:93-115 | from that very step on, no continuation of the run yields a token pair of the family |
| RefreshFamilies.RevokedForever | src/auth/auth.service.ts:93-97 | a revoked family stays revoked, gets no more rows and yields no pair in any continuation |
| RefreshFamilies.RunKeeps | src/auth/auth.service.ts:60-189 | every family is, at every moment, either wholly revoked or rotating |
| RefreshFamilies.RotateKeeps | src/auth/auth.service.ts:121-132 | only the newest token can be exchanged, and the exchange keeps the family rotating |
| RefreshFamilies.LoginKeeps | src/auth/auth.service.ts:69-70 | a login adds one live row whose family no earlier row has, and keeps the rest |
| AuthService.Service.IssuePair | src/auth/auth.service.ts:197-211 | inserts one live row and returns the matching pair |
| AuthService.Service.RevokeAll | src/auth/auth.service.ts:104-108 | the UPDATE revokes exactly the family's rows |
| AuthService.Service.LogIn | src/auth/auth.service.ts:60-71 | a new family on the right credentials, nothing otherwise |
| AuthService.Service.Rotate | src/auth/auth.service.ts:77-139 | a pair exactly for a live, unexpired token of an existing user, carrying on its family; each refusal and the revocation on reuse |
| AuthService.Service.LogOut | src/auth/auth.service.ts:147-160 | revokes the family and denies the access token until its own exp, in one transaction; the logout of the denylist machine |
| AuthService.Service.Authenticate | src/auth/auth.service.ts:173-184 | lets a token in exactly when both halves of the denylist machine would, and so never one that was logged out |
| AuthService.Service.PurgeDenylist | src/auth/auth.service.ts:186-189 | removes exactly the rows whose exp has passed and counts them; the purge of the denylist machine |
| Denylist.RunKeeps | src/auth/auth.service.ts:155-189 | a purge removes a row only once its token has expired by itself |
| Denylist.LoggedOutGetsInIff | src/auth/auth.service.ts:173-189 | a pending call with a logged-out token can be let in after `d` milliseconds, by some run, if and only if that is later than the exp of the token |
| Denylist.LoggedOutStaysOut | src/auth/auth.service.ts:173-184 | asked no later than the exp, the denylist refuses a logged-out token in every run |
| Denylist.ForgottenNeverVerifies | src/auth/token.service.ts:94-113 | a purged token never verifies again |
| Denylist.LateAcceptance | src/auth/auth.service.ts:186-189 | for every exp a run reaches a call that two milliseconds can let in and one cannot |
| Limits.PartSizeIsLeast | src/storage/limits.ts:18-24 | for every accepted size there is no error, and the part size is the least whole-MiB value of at least 5 MiB that gives at most 10 000 parts; it is at most 5 GiB |
| Limits.PartSizeInBytes | src/storage/limits.ts:6-24 | the same with every constant in bytes, for sizes up to 5 TiB |
| Limits.ThrowsIff | src/storage/limits.ts:22 | the guard throws exactly when even 5 GiB parts are too few |
| Limits.PartsCover | src/storage/limits.ts:26-31 | every length is positive, all but the last are the part size, and they add up to the size |
| Limits.LengthPastEnd | src/storage/limits.ts:29-31 | past the last part the length is zero in just one case and negative otherwise |
| Multipart.ListAllParts | src/files/files.service.ts:231-247 | over any number of pages, every stored part exactly once and in order |
| Multipart.MissingMeans | src/files/files.service.ts:156-157 | the missing numbers are exactly those of 1..total without a good part, ascending |
| Multipart.GoodPartsMembers | src/files/files.service.ts:151-153 | the filter keeps exactly the parts of the right length |
| Multipart.GoodPartsAscend | src/files/files.service.ts:167-171 | what is sent is strictly ascending |
| Multipart.GoodAndMissingPartition | src/files/files.service.ts:117-131 | in any listing at all, good and missing numbers are exclusive over 1..total, and stay within it if and only if no empty part stands past the last |
| Multipart.AssemblesExactly | src/files/files.service.ts:151-171 | when nothing is missing, the parts sent are ascending and add up to exactly the size |
| Multipart.ResumeCompletes | src/files/files.service.ts:122-131 | a listing that kept its good parts and gained the missing ones misses nothing |
| FilesService.EveryListingPartitions | src/files/files.service.ts:117-131 | in every run, good and missing part numbers of any listing partition 1..total |
| FilesService.ResumeCompletesFile | src/files/files.service.ts:108-205 | from any open upload, uploading exactly the parts reported missing and committing once gives COMPLETED and an object of exactly `size` bytes |
| FilesService.EveryRunIsSound | src/files/files.service.ts:143-205 | with any overlap of commits and uploads: COMPLETED only after a HeadObject while the object stored was exactly the declared size, and a multipart object is always exactly that long |
| FilesService.HeadMatchedMeans | src/files/files.service.ts:183-198 | that report comes only from a HeadObject on an object of the declared size |
| FilesService.CompletedStays | src/files/files.service.ts:145 | COMPLETED is final |
| FilesService.CommitAssembles | src/files/files.service.ts:146-171 | when a listing misses no part, whatever else it holds, the commit closes the upload and stores exactly `size` bytes |
| FilesService.CompletableIff | src/files/files.service.ts:151-179 | a file can still become COMPLETED if and only if its upload is not gone or a commit got past its listing in time |
| FilesService.StuckStays | src/files/files.service.ts:151-179 | otherwise it stays PENDING whatever happens |
| FilesService.CrashStrands | src/files/files.service.ts:162-179 | a crash between assembling and the UPDATE leaves a whole object under a file that never completes |
| FilesService.RetryAfterCrash | src/files/files.service.ts:151 | each retry then fails with NoSuchUpload |
| FilesService.FileRecord.Parts | src/files/files.service.ts:108-141 | the loops find exactly the good parts and the missing ones with their lengths, and every refusal is given |
| FilesService.FileRecord.Commit | src/files/files.service.ts:143-205 | the sequential commit is the five steps of the machine in a row; each of its errors if and only if its cause |
| FilesService.CommitRun | src/files/files.service.ts:143-205 | what those five steps come to |
| RateLimit.ScriptRefines | src/redis/rate-limit.ts:18-31 | the script admits exactly when the full log would, and keeps its set the recent part of that log |
| RateLimit.ExpiryRefines | src/redis/rate-limit.ts:27 | deleting the whole key once it expired changes no answer |
| RateLimit.LimiterRefinesLog | src/redis/rate-limit.ts:18-31 | in every run, each check is admitted exactly when fewer than `limit` admissions lie in (now - win, now], and is told how many remain |
| RateLimit.NoWindowOverfull | src/redis/rate-limit.ts:23-25 | no window of that length ever holds more than `limit` admissions |
| RateLimit.ScriptKeepsReachable | src/redis/rate-limit.ts:23-31 | with a positive limit the script never fails and the set stays within it |
| RateLimit.DeniedUntil | src/redis/rate-limit.ts:30-31 | after a denial in any run, every further check before its delay has elapsed is denied, told exactly what is left, and leaves the set as it was |
| RateLimit.RetryIsExact | src/redis/rate-limit.ts:30-31 | in every run the delay of a denial lies in (0, win]; all checks before it elapses are denied, and the first from then on is admitted |
| RateLimit.SecondsCoverDelay | src/redis/rate-limit.ts:67 | the seconds are at least 1, never shorter than the delay, less than a second longer |
| RateLimit.LimitsIff | src/redis/rate-limit.ts:54-76 | with Redis unreachable or its reply lost at any call, callers let through are limited in every run if and only if the limiter fails closed |
| RateLimit.AnsweredLimitsIff | src/redis/rate-limit.ts:69-76 | in the runs in which Redis answers every call they are limited if and only if the limit is positive or the limiter fails closed |
| RateLimit.RateLimiter.Script | src/redis/rate-limit.ts:18-31 | prune, count, add and re-arm, or the delay: the script specification on the real set |
| RateLimit.RateLimiter.Check | src/redis/rate-limit.ts:54-76 | the answer for each reply, for an unreachable Redis, and for a script that ran but was not heard |
| Retry.WithRetry | src/concurrency/lib.ts:40-67 | the result is that of the first attempt that did not fail retryably; only an exhausted budget rethrows a retryable error |
| Retry.FailMeans | src/concurrency/lib.ts:54-63 | a failed attempt rolls back and is tried again exactly for 40001 and 40P01 while attempts are left |
| Retry.NoLostUpdate | src/demo-retry.ts:33-45 | in every interleaving the value is the start plus, once each, the deltas of the calls that returned or only lost the answer to COMMIT |
| Retry.ThrownContributesIff | src/concurrency/lib.ts:50-63 | a call that threw has contributed if and only if the answer to its COMMIT was lost |
| Retry.LostAnswer | src/concurrency/lib.ts:52-63 | such a run, for every delta |
| Retry.BodiesBounded | src/concurrency/lib.ts:46-63 | no body runs more often than the budget |
| Retry.AtMostIff | src/concurrency/lib.ts:46-63 | "at most maxAttempts" holds in every run if and only if it is at least one |
| Retry.EnoughAttempts | src/concurrency/lib.ts:57-61 | with n calls on a row and at least n attempts each, write conflicts alone never make a call throw |
| Retry.CommitKeeps | src/concurrency/lib.ts:50-54 | a commit under first-updater-wins adds exactly its delta to the committed value |
| QueueWorker.EachJobOnce | src/queue-worker.ts:15-43 | in every run with crashes: processed is 1 exactly for done jobs and 0 otherwise, and no job is held twice |
| QueueWorker.ClaimTakesFirst | src/queue-worker.ts:19-28 | a claim takes the first new job no worker holds, and nothing only when there is none |
| QueueWorker.DoneByIff | src/queue-worker.ts:30-36 | in every run a job is done by a worker if and only if that worker committed it |
| QueueWorker.ExitsOnlyWhenDrained | src/queue-worker.ts:51-66 | a worker leaves its loop at a count, and at that instant no job is `new`, held ones included |
| QueueWorker.CountMoves | src/queue-worker.ts:30-36 | each commit takes exactly one off the count of new jobs |
| QueueWorker.CanAlwaysDrain | src/queue-worker.ts:51-66 | from every reachable state one idle worker and the holders can finish everything, and it then exits |
| QueueWorker.OneMoreDone | src/queue-worker.ts:19-36 | while a job is new, its holder or an idle worker can finish one |
| QueueWorker.JobTable.ClaimOne | src/queue-worker.ts:10-43 | the first free job is processed and marked in one transaction, or nothing changes |
| QueueWorker.JobTable.CountNew | src/queue-worker.ts:59-61 | counts the new jobs, held ones included |
| QueueWorker.JobTable.RunWorker | src/queue-worker.ts:51-66 | alone, it processes every new job once, touches no other, and claims once more than there were jobs |
| OrderEvents.OrderEventsService.EmitStatusChange | src/orders/order-events.service.ts:29-47 | counter and buffer stay the count and the last hundred of everything sent, per order |
| OrderEvents.OrderEventsService.MissedSince | src/orders/order-events.service.ts:51-53 | returns the replay |
| OrderEvents.EventsOfMeans | src/orders/orders.controller.ts:99-101 | an order's stream holds exactly the events of that order |
| OrderEvents.ReplayIs | src/orders/order-events.service.ts:51-53 | the replay is the events after the id that are among the last hundred |
| OrderEvents.ResumeIsSeamless | src/orders/orders.controller.ts:81-101 | replay and live stream together are exactly the order's events after the id |
| OrderEvents.SeamlessIff | src/orders/orders.controller.ts:94-101 | no gap and no repeat, whatever follows, if and only if the id is in reach |
| Cursor.Base64RoundTrip | src/common/cursor.ts:11-16 | decoding inverts encoding for every byte string |
| Cursor.AlphabetIs | src/common/cursor.ts:11-13 | the characters are those of section 5 of RFC 4648 |
| Cursor.BitsKept | src/common/cursor.ts:11-13 | the text holds the bits of the bytes, most significant first |
| Cursor.CursorRoundTrip | src/common/cursor.ts:11-24 | every issued cursor decodes to its offset and is never empty |
| Cursor.RefusedIff | src/common/cursor.ts:15-27 | a page is refused if and only if its cursor is not empty and does not decode to digits |
| Cursor.WalkReads | src/common/cursor.ts:26-34 | at every moment of a walk the items read are a prefix of the list and the cursor stands for exactly the rest |
| Cursor.EndedWalkReadsAll | src/common/cursor.ts:26-34 | a walk that ends has read every item once and in order, also when items were appended meanwhile |
| Cursor.WalkEndsIff | src/common/cursor.ts:26-34 | from any point of any walk, appends included, following next_cursor ends once the list stays the same, if and only if the limit is positive or the list empty |

## Left out

- Family-wide revocation at statement granularity: each token transaction is one step. Under READ COMMITTED the family UPDATE sees only its own snapshot, so nothing is claimed about a row that a concurrent refresh of another token is inserting.
- Pipeline.EveryRunKeepsInv: a checkout and a consumer's transaction are one step each; `CheckoutInterleaving` justifies the first, and the consumer's statements run under the unique indexes its model checks.
- CheckoutInterleaving.EveryRunIsSerial: each statement is atomic and sees the latest committed rows, as READ COMMITTED re-evaluates a row after waiting for its lock; statements later than the lock on the user only insert rows of their own and are not made to wait. An outcome is what the transaction decided; that the caller may not hear the answer to COMMIT is in `CheckoutService.Database.PlaceOrder`.
- Checkout.SerialKeeps: the product of price and quantity is computed in integer cents; rounding of the floating product is not modelled.
- Denylist.LoggedOutGetsInIff: the application's clock and the database's are one clock.
- RateLimit.LimiterRefinesLog: times do not decrease, as with one Redis server whose clock is not set back; window and limit are whole numbers.
- CacheService.Cache.Get: one call with no other process in between; all interleavings are in `CacheAside`. Parsing of the cached JSON, the length of TTLs and the jitter are left out.
- QueueWorker.JobTable.RunWorker: a worker alone; with others it may wait for them, which the machine covers.
- FilesService.FileRecord.Commit: the listing is a parameter, `Multipart.ListAllParts` produces it; storage refuses a completion only for a missing upload or an ETag that no longer matches.
- FilesService.EveryRunIsSound: a fact about the HeadObject instant: for a single PUT the presigned address may outlive the commit and replace the object.
- Cursor.RefusedIff: a forged cursor whose text is not plain digits is refused here, while the code also takes other spellings of a whole number such as `1e3` or one with spaces around it.
- OrderEvents.SeamlessIff: Last-Event-ID is a whole number; text that is not a number replays nothing in the code.
- `intent` and the idempotency race of two intents, presigned addresses and their expiry: one unique index decides.
- `startRelay`: the polling loop around `relayOnce` with its stop flag and delays.
- Prefetch, polling gaps and backoff delays: timing only.
- Unroutable messages: exchanges and queues are taken to be declared before anything is published.
- Cryptography, token signing, password checks, roles, ownership checks, validation schemas, HTTP and socket layers, sessions, the CDN edge, demos and scripts.
