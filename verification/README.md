# A verified model of tinyim's message pipeline

tinyim is an instant-messaging server: clients send through an access server to a logic server,
which asks an id generator for message ids and a database proxy to store one copy of each message
per mailbox. This project models how a message is sent exactly once and in order, how ids are
generated across restarts, how the access server parks and answers pull calls, and the
consistent-hash ring, and proves what they guarantee in every run.

`dafny verify dfyconfig.toml` checks everything (Dafny 4.11).

## How the model is laid out

| file | what it holds |
|---|---|
| `Types.dfy`, `Buckets.dfy` | messages, rows, the sharding of a map into 16 buckets |
| `IdGen.dfy` | the reserving counter as a state machine with storage failures and crashes |
| `IdGenService.dfy` | the bucketed `LevelDbIdGen` class and the batch loop, proved against `IdGen.dfy` |
| `Dbproxy.dfy` | the table with its unique key, the expiring cache, the sessions, as a class |
| `Logic.dfy` | the id request, the stored rows and the fan-out, with their loops |
| `SendProtocol.dfy` | clients, attempts, stores and histories as one step system |
| `SendInvariant.dfy` | its inductive invariant, preserved by every step |
| `SendTheorems.dfy`, `SendContents.dfy` | what holds in every reachable state; what stored rows say and whom they reach |
| `SendOrder.dfy`, `OrderGap.dfy` | per-sender order, the restarts that keep it and the runs that break it |
| `SendLimits.dfy` | which group messages reach everybody, and which retries are acknowledged |
| `LogicService.dfy` | `SendMsg` and `SendtoPeers` as the code runs them; each call is a path of the step system |
| `Client.dfy` | the client's stamps and retry loop |
| `Access.dfy`, `AccessTheorems.dfy`, `AccessHistory.dfy`, `AccessService.dfy` | the parked-pull table, its guarantees, the table read off the run, and the bucketed class |
| `ConsistentHash.dfy` | the ring, its lookup and its accounting loop |

The step system keeps everything that can go wrong between the servers: any number of attempts of
one message stall and overlap, an RPC fails before acting (a `Drop`) or acts and loses its reply (the
acting step, then a `Drop`), cache entries expire, sessions come and go, the id generator restarts
and its disk fails, and a cached entry scans as its triple or, when its text does not parse, as
zeros. The id generator inside it is the reserving one of `IdGen.dfy`, not an abstract counter.

## What the code does not keep, and when it does

* **Ids after a restart.** The project documentation (`README.md:26`) promises ids that keep growing
  across restarts. The guard at `tinyim/server/idgen/idgen.cc:61` stays silent when the cached counter
  sits on a block end, so ids beyond the durable watermark are handed out. `IdGen.RestartSafeExactly`:
  a crash is harmless at every point of a run if and only if no grant of the run `Overruns`, that
  is, starts on a block end without loading or reserving. `SendMsg` only asks for single ids, and
  then the guard never fires again after the first load: `IdGen.SingleGrantsOutrunTheWatermark`. A
  failed `Put` right after a load has the same effect: `IdGen.FailedPutRepeatsAnId`. `Guard.Repaired`
  also reserves at `counter % block == 0`; it is not in the code. With it nothing overruns.
* **Order after a restart.** `SendOrder.MailboxOrder` holds in every run whose restarts find all
  granted ids below the durable watermarks; runs without a restart are among them, however often
  they overrun. `OrderGap.RestartKeepsOrderExactly`: from every state of such a run, a client that sends,
  sees the generator restart and sends again gets its two messages in order if and only if the
  restart found its ids below its watermark. With the guard as written every reachable state with an
  idle client leads to such a failure (`OrderGap.AsWrittenBreaksOrder`), so the order holds over all
  runs if and only if the guard is the repaired one (`OrderGap.GuardDecidesOrder`). All the other
  theorems about reachable states hold for both guards and all runs.
* **No loss for groups.** The documentation (`README.md:17`) promises that no acknowledged message is
  lost. A group save that is cut off midway is acknowledged to a later retry by the store lookup:
  `SendLimits.AckedGroupMessageCanMissAMember`. `SendLimits.ReachedEverybodyExactly`: those who get the
  message are those named on the list before the first storage failure and before the first
  repeated user; a list without repetitions is reached whole if and only if no failure hits the save
  between its first row and its last.
* **Retries.** A lost reply leaves a cache entry of the message's own time. If its text does not parse, or
  if the entry is older, a retry burns ids and is refused.
  `SendLimits.RetryIsAckedExactly`: a failure-free retry of the newest stored message is acknowledged if
  and only if there is no cache entry, or the entry has the message's time and parses.
* **Version numbers.** `Client.StampsIncreaseExactly`: the client's stamps strictly increase if and only if
  no message is sent while the clock is behind the previous stamp; three messages in one second
  break it. The step system takes increasing stamps as its precondition.

## Assumptions

User ids and group member ids are not negative, id counts are at least 1, `each_gen_id_num` is at
least 1 and does not change. A client's `client_time` is positive and increases from message to
message. Rows present at the start are older than anything sent later; for the order theorems they
are also in order and covered by the ids already granted. All mailboxes are in one database pool, as `ChooseDatabase` has it.
Rings are non-empty for `find`, and node ids are not negative for `Describe`.

## Model

| member | source | states |
|---|---|---|
| IdGen.GrantAdvances | tinyim/server/idgen/idgen.cc:34-79 | a grant that does not overrun starts above every id ever granted to the user and keeps counter, watermark and largest id in order |
| IdGen.IncreasingAlongRun | tinyim/server/idgen/idgen.cc:42-78 | over any run of grants, Get and Put failures and crashes without an overrun, a user's ranges are disjoint and strictly increasing |
| IdGen.RepairedIdsSurviveRestarts | README.md:26 | with the repaired guard that holds for every run, and no cached counter passes its watermark |
| IdGen.RestartSafeExactly | tinyim/server/idgen/idgen.cc:61-78 | every point of a run is safe to crash at if and only if no grant overruns, for either guard |
| IdGen.OverrunBreaksRestart | tinyim/server/idgen/idgen.cc:61-77 | right after an overrun, a crash makes the next id repeat or fall behind one already granted |
| IdGen.SingleGrantsOutrunTheWatermark | tinyim/server/idgen/idgen.cc:61-77 | with the guard as written and single-id grants, a crash is harmless up to the block-th grant and never after |
| IdGen.FailedPutRepeatsAnId | tinyim/server/idgen/idgen.cc:49-74 | a Put that fails after a load makes a later crash hand out the same id twice |
| IdGen.RestartSkipsLessThanABlock | README.md:26 | a restart leaves fewer than one block of ids unused |
| IdGen.GrantStaysAhead | tinyim/server/idgen/idgen.cc:34-79 | overrun or not, without a crash a grant starts above every id ever granted to the user |
| IdGen.CrashStaysAheadExactly | tinyim/server/idgen/idgen.cc:42-59 | a crash keeps the next ids new if and only if every granted id is below its user's watermark |
| IdGen.GrantIsFlat | tinyim/server/idgen/idgen.cc:42-78 | a granted request takes the next ids of its own user and changes nobody else's counter, failures change none |
| IdGen.CrashFreeRunsTile | tinyim/server/idgen/idgen.cc:76-78 | without a crash a user's granted ranges tile an interval: nothing skipped, nothing repeated |
| IdGen.WritesAtMostOnePerBlock | tinyim/server/idgen/idgen.cc:61-69 | from a fresh load, k ids cost at most ceil(k / block) synchronous writes |
| IdGenService.LevelDbIdGen.Load | tinyim/server/idgen/idgen.cc:42-59 | loading answers the flat map's base value, and a failed Get leaves a zero entry |
| IdGenService.LevelDbIdGen.IdGenerate | tinyim/server/idgen/idgen.cc:34-79 | the 16 bucketed caches behave as one map: new contents and answer are those of the flat step |
| IdGenService.IdGenServiceImpl.IdGenerate | tinyim/server/idgen/idgen_server.cc:42-60 | the loop's replies, failure and final state are those of the batch specification |
| IdGenService.BatchReplies | tinyim/server/idgen/idgen_server.cc:42-60 | replies follow the request; a repeated user gets adjacent ranges, each starting after what earlier entries asked |
| IdGenService.BatchCounters | tinyim/server/idgen/idgen_server.cc:42-60 | a batch moves each counter by exactly what its served entries asked, also when it stops early |
| IdGenService.BatchIsRun | tinyim/server/idgen/idgen_server.cc:42-60 | a batch is a crash-free run whose log gains exactly the replies, failed or not |
| IdGenService.RepairedBatchNeverReissues | README.md:26 | ids granted by a batch, even one that failed midway, are never granted again |
| Dbproxy.AcceptedKeepsOldRows | tinyim/server/dbproxy/db.sql:94 | accepted insertions overwrite nothing and add no keys but their own |
| Dbproxy.AcceptedRowIsStored | tinyim/server/dbproxy/db.sql:94 | each accepted row is stored as given under a key that was free |
| Dbproxy.NewestIsUnique | tinyim/server/dbproxy/dbproxy_service.cc:356-369 | the MAX query has one answer |
| Dbproxy.DbproxyServiceImpl.InsertRow | tinyim/server/dbproxy/dbproxy_service.cc:253-263 | an INSERT adds the row or is refused by the unique key and changes nothing |
| Dbproxy.DbproxyServiceImpl.SavePrivateMsg | tinyim/server/dbproxy/dbproxy_service.cc:153-237 | both copies go in or neither; then the cache moves, or its call fails with or without effect |
| Dbproxy.DbproxyServiceImpl.SaveGroupMsg | tinyim/server/dbproxy/dbproxy_service.cc:239-278 | the rows inserted are the longest accepted prefix before the first failure; the cache moves only after all of them |
| Dbproxy.SetAllKeepsNewest | tinyim/server/dbproxy/dbproxy_service.cc:282-290 | in whatever order commands take effect, the entry ends at the newest of their times and its own, is one of them, and nobody else's moves |
| Dbproxy.DbproxyServiceImpl.SetUserLastSendData | tinyim/server/dbproxy/dbproxy_service.cc:280-311 | a newer time, or any with no entry there, replaces the entry with what was given; no other does |
| Dbproxy.DbproxyServiceImpl.GetUserLastSendData | tinyim/server/dbproxy/dbproxy_service.cc:323-386 | the cached triple or zeros when there is an entry, otherwise the newest stored row or zeros |
| Dbproxy.DbproxyServiceImpl.GetSessions | tinyim/server/dbproxy/dbproxy_service.cc:80-130 | one session per user in request order |
| Logic.OthersAreTheOtherMembers | tinyim/server/logic/logic_service.cc:145-154 | the group part of the id request is the member list without the sender, with multiplicities |
| Logic.OthersKeepTheOrder | tinyim/server/logic/logic_service.cc:145-154 | each other member stands after exactly those listed before it |
| Logic.BuildIdRequest | tinyim/server/logic/logic_service.cc:120-155 | the request is the sender and the peer, or the sender once in front and every other listed member, as often and in the order the group lists them |
| Logic.BuildGroupMsg | tinyim/server/logic/logic_service.cc:205-223 | users and ids are copied in order and the sender's id is the first reply's |
| Logic.SavedRowsAreAligned | tinyim/server/logic/logic_service.cc:178-227 | both ways of saving store, for each position, that user's row with that position's id |
| Logic.FanoutIsAligned | tinyim/server/logic/logic_service.cc:310-338 | each push goes to its recipient's session address with the id granted for that recipient |
| Logic.FanoutIsOrdered | tinyim/server/logic/logic_service.cc:310-338 | pushes follow the request order, no recipient twice |
| Logic.FanoutReachesEverySession | tinyim/server/logic/logic_service.cc:289-338 | no recipient with a session is left out |
| SendInvariant.StepKeepsInv | tinyim/server/logic/logic_service.cc:72-250 | every step of clients, attempts, stores and restarts keeps the invariant |
| SendInvariant.StepEvolves | tinyim/server/dbproxy/dbproxy_service.cc:153-311 | no step undoes a stored row, a granted id, a reply or a push |
| SendInvariant.SecondWriterIsRefused | tinyim/server/dbproxy/db.sql:94 | once an attempt has stored a row, every other attempt of that message is refused its first row |
| SendInvariant.SavingIsNewest | tinyim/cmd_client/client.cc:447-471 | an attempt that stores its first row is for the newest message its sender has in flight |
| SendInvariant.StepsKeepInv | tinyim/server/logic/logic_service.cc:72-250 | the invariant holds throughout every run, with either guard, and nothing done before is undone |
| SendOrder.MailboxOrder | README.md:17 | in every mailbox a sender's later message has the larger id, over all retries, lost replies, expiry, overruns and covered restarts |
| SendOrder.NoRestartIsCovered | tinyim/server/idgen/idgen.cc:42-78 | runs of the code as written without a restart are among those, overrunning or not |
| SendOrder.NoOverrunIsCovered | tinyim/server/idgen/idgen.cc:61-78 | so are runs without an overrun, restarted anywhere |
| SendOrder.RepairedIsCovered | README.md:26 | so are all runs with the repaired guard |
| OrderGap.RestartKeepsOrderExactly | tinyim/server/idgen/idgen.cc:42-78 | from every state of an ordered run: after sending, a restart and sending again, the two messages are in order if and only if the restart found the client's ids below its watermark |
| OrderGap.OrderFailsAfterAnOverrun | tinyim/server/idgen/idgen.cc:61-77 | from every state whose next grant to an idle client overruns, a run gives two of its messages the same id |
| OrderGap.AsWrittenBreaksOrder | tinyim/server/idgen/idgen.cc:61-77 | with the guard as written every reachable state with an idle client leads to two of its messages out of order |
| OrderGap.GuardDecidesOrder | README.md:17 | order holds over all runs if and only if the guard also reserves on a block end |
| SendTheorems.RetriesNeverMix | tinyim/server/dbproxy/dbproxy_service.cc:248-264 | all rows of a message come from one attempt and are a prefix of its list, the sender's row included |
| SendTheorems.AckSoundness | tinyim/server/logic/logic_service.cc:101-108 | every reply carries the id and time of the sender's stored row |
| SendTheorems.AcksAgree | tinyim/server/logic/logic_service.cc:198-240 | two replies to one message agree |
| SendTheorems.AckedFromSaveOrCacheIsWhole | tinyim/server/dbproxy/dbproxy_service.cc:248-277 | a reply from the save or the cache means one attempt stored the message for everybody on its list |
| SendTheorems.AckedPrivateHasBothCopies | tinyim/server/dbproxy/dbproxy_service.cc:162-189 | an acknowledged private message is in both mailboxes, whatever the reply came from |
| SendTheorems.MovedOnMeansStored | README.md:17 | a message the client is no longer sending has its sender's row stored |
| SendTheorems.CacheLagsStore | README.md:54 | a cache entry is a stored row, not newer than the newest, and equal to it at the same time |
| SendTheorems.CacheOnlyGrows | tinyim/server/dbproxy/dbproxy_service.cc:282-290 | over any run without its expiry, an entry stays or has moved to a newer message |
| SendTheorems.CacheKeepsUp | tinyim/server/dbproxy/dbproxy_service.cc:280-311 | after an attempt's compare-and-set, the sender's entry names that message or a later one until it expires |
| SendContents.RowsCarryTheMessage | tinyim/server/dbproxy/dbproxy_service.cc:153-278 | every stored row is a full copy of the submitted message, under an id the generator granted to that mailbox's user |
| SendContents.CompleteGroupReachesItsMembers | tinyim/server/logic/logic_service.cc:120-227 | once an attempt has stored all its rows, every member its listing named, and the sender, has a copy |
| SendTheorems.PushAgreesWithStore | tinyim/server/logic/logic_service.cc:310-338 | every push matches a row already stored in that recipient's mailbox and never goes to the sender |
| SendTheorems.FanoutUsesSessions | tinyim/server/logic/logic_service.cc:266-275 | pushes go to the addresses the recipients' sessions had when the fan-out read them |
| SendTheorems.SessionIsLatest | tinyim/server/dbproxy/dbproxy_service.cc:58-78 | over any run, a user's session has the address registered last |
| SendTheorems.AtMostOnePush | tinyim/server/logic/logic_service.cc:243-249 | no stored copy is pushed twice, over all attempts |
| SendLimits.SaveStopsExactly | tinyim/server/dbproxy/dbproxy_service.cc:247-270 | once a group save has a row, it stops exactly at the first storage failure, the first repeated user or the end of its list |
| SendLimits.ReachedEverybodyExactly | tinyim/server/dbproxy/dbproxy_service.cc:247-270 | over every run to the end of a save: who gets the message is who is named before the first storage failure and the first repetition; without repetitions everybody does if and only if no failure hits the save midway |
| SendLimits.PartialGroupSaveIsPermanent | tinyim/server/dbproxy/dbproxy_service.cc:266-270 | after a cut-off save, whoever has no row never gets one in any later run |
| SendLimits.AckedGroupMessageCanMissAMember | tinyim/server/dbproxy/dbproxy_service.cc:351-380 | a run in which a group message is acknowledged from the store and a member has no row |
| SendLimits.RetryAfterExpiryIsAcked | tinyim/server/dbproxy/dbproxy_service.cc:351-380 | with no cache entry, a failure-free retry of the newest stored message is acknowledged with its id and changes no table and no counter |
| SendLimits.RetryBehindOwnEntryIsAcked | tinyim/server/dbproxy/dbproxy_service.cc:336-350 | behind an entry of its own time that parses, a retry is acknowledged from the cache and changes nothing else |
| SendLimits.RetryBehindOldEntryIsRefused | README.md:54 | behind an entry for another time, or one that does not parse, a retry burns one id per user and is refused: no row, no entry, no reply |
| SendLimits.RefusedRetryRunsToItsEnd | tinyim/server/dbproxy/dbproxy_service.cc:266-270 | such a retry can always go on to its refusal, after exactly three moves more than its list has users |
| SendLimits.RetryIsAckedExactly | tinyim/server/dbproxy/dbproxy_service.cc:323-386 | a failure-free retry of the newest stored message is acknowledged if and only if there is no entry, or one of its own time that parses, and then with the stored id |
| LogicService.BatchIsPath | tinyim/server/logic/logic_service.cc:158-163 | the id batch of an attempt is a path of single grants in the step system |
| LogicService.RowsArePath | tinyim/server/dbproxy/dbproxy_service.cc:247-264 | the group save's insertions are a path of row steps |
| LogicService.LogicServiceImpl.CheckDuplicate | tinyim/server/logic/logic_service.cc:89-108 | the lookup and its decision are a path; it fails exactly when a lookup call does, and otherwise finds the message processed exactly when the cached entry, read as zeros if it does not parse, or without one the newest stored row, has its time |
| LogicService.LogicServiceImpl.RequestIds | tinyim/server/logic/logic_service.cc:110-163 | listing and asking for ids is a path; it succeeds exactly when both calls answer and the batch does not fail, a lost call leaves the generator as its batch or as it was, and on success ids and users are aligned |
| LogicService.LogicServiceImpl.SavePrivate | tinyim/server/logic/logic_service.cc:178-204 | saving a private message is a path that ends saved or dropped, with the proxy's stores as its result |
| LogicService.LogicServiceImpl.SaveGroup | tinyim/server/logic/logic_service.cc:205-241 | saving a group message is a path that ends saved or dropped, with the proxy's stores as its result |
| LogicService.LogicServiceImpl.SendMsg | tinyim/server/logic/logic_service.cc:72-250 | a whole call is a path of one attempt and its reply that path's acknowledgement; it is answered exactly when the lookup is reached and knows the message, then with the lookup's id and time, or the message gets ids, rows for its whole list and a cache answer, then with the sender's new id; only the latter starts the fan-out |
| LogicService.UnansweredHasAReason | tinyim/server/logic/logic_service.cc:89-250 | a call without a reply had a failed call or disk, or a row refused by the unique key |
| LogicService.LogicServiceImpl.SendtoPeers | tinyim/server/logic/logic_service.cc:252-340 | the two passes with their separate indices are a path that reads the sessions and makes exactly the pushes of the fan-out, with a channel for every present session; a failed session lookup ends it before any push |
| SendTheorems.StepsStayReachable | tinyim/server/logic/logic_service.cc:72-250 | any steps from a reachable state, a whole call included, end in one and undo nothing, with either guard |
| Client.StampsIncreaseExactly | tinyim/cmd_client/client.cc:427-433 | stamps strictly increase if and only if the clock is never behind the previous stamp |
| Client.ThreeInOneSecondRepeatAStamp | tinyim/cmd_client/client.cc:427-433 | the third message of one second gets the first one's stamp |
| Client.SendClient.Send | tinyim/cmd_client/client.cc:421-471 | every retry is the same stamped message; the client stops at the first success and takes its id |
| AccessTheorems.PullsAreConserved | tinyim/server/access/access_service.cc:187-388 | in every interleaving each pull is parked once, due once or run once |
| AccessTheorems.EveryPullIsAnsweredOnce | tinyim/server/access/access_service.cc:372-388 | after shutdown every pull has been answered exactly once |
| AccessTheorems.EntriesHoldOwnPulls | tinyim/server/access/access_service.cc:286-297 | the three pointers of an entry are null together and belong to a pull of that user |
| AccessTheorems.MessagesReachTheirRecipient | tinyim/server/access/access_service.cc:196-204 | no message is delivered to another user's pull |
| AccessTheorems.NothingIsOrphaned | tinyim/server/access/access_service.cc:210-318 | every entry's timer is pending or still firing, every pending timer is its entry's |
| AccessTheorems.StepKeepsInv | tinyim/server/access/access_service.cc:187-388 | every operation, timeout and the shutdown keep the table's invariant |
| AccessTheorems.ClosedRunsCount | tinyim/server/access/access_service.cc:374-381 | the shutdown loop runs each parked closure exactly once |
| AccessTheorems.LateHandlerClosesFreshPull | tinyim/server/access/access_service.cc:27-34 | a handler that fired before a new pull arrived closes that pull and drops its timer |
| AccessHistory.TableIsHistory | tinyim/server/access/access_service.cc:187-370 | in every run the table holds exactly the users who pulled or beat since they last timed out, each with its latest pull that nothing has taken and the timer of its latest pull or beat |
| AccessHistory.OnlyLatestTimerFires | tinyim/server/access/access_service.cc:210-318 | a timer fires only if its user has neither pulled nor beaten since it was started |
| AccessHistory.DeliveriesAreExact | tinyim/server/access/access_service.cc:187-388 | what has been taken out to run is exactly, each once, the waiting pulls that pushes took with their whole message and that later pulls and timeouts took with none; shutdown adds nothing with a message |
| AccessHistory.PushedMessageIsDelivered | tinyim/server/access/access_service.cc:187-208 | a message pushed to a waiting pull is due with it at once and that pull runs with nothing else |
| AccessHistory.BeatRestartsTimer | tinyim/server/access/access_service.cc:210-244 | a heartbeat leaves a new pending timer recorded, the old one unable to fire, the pull and everybody else as they were |
| AccessHistory.PullRestartsTimer | tinyim/server/access/access_service.cc:275-318 | so does a pull, which also parks itself and releases the one before |
| AccessHistory.DeliverHandsOver | tinyim/server/access/access_service.cc:187-208 | a push takes the parked pull with the whole message and leaves the entry and its timer |
| AccessService.AccessServiceImpl.PushClosureAndReply | tinyim/server/access/access_service.cc:275-318 | the bucketed table, the timers and the released closure are those of the flat step |
| AccessService.AccessServiceImpl.ResetHeartBeatTimer | tinyim/server/access/access_service.cc:210-244 | the timer is restarted and nothing else of the entry changes |
| AccessService.AccessServiceImpl.ClearUserData | tinyim/server/access/access_service.cc:246-273 | the entry and its timer go, and its closure is handed out |
| AccessService.AccessServiceImpl.HeartBeatTimeout | tinyim/server/access/access_service.cc:27-34 | the handler clears its user's entry |
| AccessService.AccessServiceImpl.PopClosureAndReply | tinyim/server/access/access_service.cc:320-370 | the three pointers are taken, or with nobody asking for them the closure is handed out to run, and left null; the timer stays |
| AccessService.AccessServiceImpl.SendtoAccess | tinyim/server/access/access_service.cc:187-208 | the parked pull, if any, runs with the message |
| AccessService.AccessServiceImpl.ClearClosureAndReply | tinyim/server/access/access_service.cc:372-389 | the loop over buckets runs and cancels what one visit of every entry would |
| ConsistentHash.InsertRemapsItsArcOnly | tinyim/util/consistent_hash.h:75-95 | an insert moves exactly the arc from the predecessor to the new vnode, all of it to the new vnode |
| ConsistentHash.InsertedExactly | tinyim/util/consistent_hash.h:75-78 | an insert adds its entry at a free hash and keeps the old vnode at a taken one |
| ConsistentHash.ErasedExactly | tinyim/util/consistent_hash.h:84-86 | an erase takes out the entry of that hash, if any, and nothing else |
| ConsistentHash.EraseUndoesInsert | tinyim/util/consistent_hash.h:75-86 | erasing the vnode gives back the ring |
| ConsistentHash.PrintedAddUp | tinyim/util/consistent_hash.h:102-136 | the printed sums total 2^32 - 1 |
| ConsistentHash.CountArc | tinyim/util/consistent_hash.h:88-95 | every hash of a stretch without vnodes maps to the vnode at its end |
| ConsistentHash.ConsistentHash.Insert | tinyim/util/consistent_hash.h:75-78 | emplace adds the vnode unless its hash is taken |
| ConsistentHash.ConsistentHash.Erase | tinyim/util/consistent_hash.h:84-86 | erase removes the entry of the vnode's hash and answers how many |
| ConsistentHash.ConsistentHash.Find | tinyim/util/consistent_hash.h:88-95 | the answer is the node of the next vnode clockwise |
| ConsistentHash.ConsistentHash.Describe | tinyim/util/consistent_hash.h:102-136 | each sum is the number of 32-bit hashes that find maps to the node, less one for the smallest vnode's owner; no subtraction wraps |

## Left out

- RPC transport, channels, protobuf encoding, logging, flags and start-up: an RPC is a step that may fail before acting, or act and lose its reply. Automatic transport retries add no behaviour beyond more attempts and burned ids.
- The text of a Redis entry: the script stores quoted strings (`tinyim/server/dbproxy/dbproxy_service.cc:286`) and the lookup scans bare numbers (`tinyim/server/dbproxy/dbproxy_service.cc:347`). A cached lookup yields either the triple or zeros, and every guarantee holds for both.
- The two-pool branch of `SavePrivateMsg` (`tinyim/server/dbproxy/dbproxy_service.cc:190-219`): `ChooseDatabase` always returns the same pool.
- The row's `id` and `deleted` columns, and the rounding of `FROM_UNIXTIME`.
- Widths of integers: ids and times are unbounded; only the ring's 32-bit arithmetic is written out.
- A Put that fails but still becomes durable: a failed Put leaves the watermark as it was.
- Ownership of `HeartBeatTimeoutArg`: `PushClosureAndReply` does not record the argument it gives the timer (`tinyim/server/access/access_service.cc:308-314`), so arguments are treated as garbage-collected.
- Access activity after the shutdown loop: the loop leaves its closures in the table; the model stops there.
- The inverted assertion in `find` (`tinyim/util/consistent_hash.h:89`): a non-empty ring is required instead. The CRC is any function to 32 bits, and the ordered map is its sorted sequence of entries.
- The error code copied from the wrong controller when a group save fails (`tinyim/server/logic/logic_service.cc:230`): it is a failed call without a reply.
- A client that restarts and abandons an unacknowledged message, heartbeats, sign-in and sign-out, friend, group and message queries.
- SendOrder.MailboxOrder: for runs whose restarts are covered, because the code as written breaks it otherwise (OrderGap.RestartKeepsOrderExactly, OrderGap.AsWrittenBreaksOrder).
- IdGenService.LevelDbIdGen.IdGenerate: requires a user id that is not negative, because the code indexes its bucket array with the remainder.
