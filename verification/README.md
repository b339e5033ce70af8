# dion: a verified model of its control plane

dion keeps media servers in step with a global load balancer. A node (SXU) reports its status over a
stream to the balancer (ISGLB), which folds the reports of all streams into one table, runs an algorithm
on it and sends expected statuses back; the node compares an expected status with what it has, and starts,
replaces and stops its tracks. This project models the five parts of dion that carry that state, and proves
what they keep.

| file | models |
|---|---|
| `Proto.dfy` | the messages, and the printed keys of tracks and sessions |
| `SetMap.dfy` | `util/setmap.go`: the many-to-many relation kept as two transposed maps |
| `IsglbRecv.dfy` | `pkg/isglb/service.go`: the receive loop, as a class and as functions on its variables |
| `IsglbSystem.dfy` | the whole ISGLB service: all interleavings of streams, channels, queue and receive loop, with an arbitrary algorithm |
| `IsglbBatches.dfy` | whole runs of the service: what is pushed, what a round gives to the algorithm, how a batch is dispatched |
| `SendConflation.dfy` | `routineSFUStatusSend`: the channels of capacity one between a stream's reader and its senders |
| `SendPath.dfy` | the service and the readers of all its streams together, from the receive loop to `sig.Send` |
| `KeyedList.dfy` | lists of keyed items as maps in which the last item of a key wins |
| `KeyOrder.dfy`, `DisorderSet.dfy` | `util/set.go`: the set by key, its diff against a list, the canonical sorted list |
| `TrackRouter.dfy` | `pkg/sxu/forward.go` and `pkg/sxu/proceed.go`: one watchdog per track key |
| `WatchedTracks.dfy` | a router and the supervisors it starts together: from the track set to the doors |
| `Syncer.dfy` | `pkg/sxu/syncer/syncer.go`: the node's main loop over the sets and routers |
| `ClosedLoop.dfy` | `algorithms/impl/stupid.go` and the loop of server and nodes that it closes |
| `Mailbox.dfy`, `BlockedDoor.dfy`, `UnblockedDoor.dfy` | `util/blockeddoor.go`, `util/watchdog.go`: the two supervisors and their update channel |
| `Bridge.dfy` | `pkg/sxu/bridge/bridge.go`: the watchdogs of the source sessions |
| `Reconnect.dfy` | `util/client.go`, `util/lock.go`, `pkg/sfu/client.go`: reconnection by any number of goroutines |
| `ExpireSetMap.dfy` | `util/timer.go`: the expiring relation |

Code that one goroutine runs alone is a class whose methods are proved against functions on its contents.
Code whose steps interleave with other goroutines is a transition system: `Enabled` says when an atomic step
can be taken, `After` what it does, `Run` what a run is, and the theorems hold in every state of every run.
Where the two meet (the receive loop) both use the same functions, `Consume`, `Send` and `LastByNid`.

Go's map iteration order, `select` among ready channels, `sigs[0]`, the results of doors, of `Recv` and of
`Send`, and the moments at which timers fire are all nondeterministic here. Messages are compared by their
printed form in the code; here they are values, equal exactly when all fields are. `Clone` is the identity.

Some things the code does differ from what one may expect of it, and the model follows the code:

- A new track key that an expected status lists twice is replaced before it is started, so the watchdog gets
  the first track while the set holds the last. Routers and sets agree exactly when that does not happen
  (`ReplayYieldsListIff`, `DuplicateKeyDiverges`).
- The printed keys join two fields with a separator, so a field that holds the separator makes the key
  ambiguous (`ForwardKeyAmbiguousIff`, `ClientKeyAmbiguousIff`).
- A refresh saves an expiring pair exactly when its timer has not fired yet (`RefreshSavesIff`); once its
  goroutine is on the way to the queue, or its deletion is queued, the pair can go before the next expiry.
- `SingleWaitExec` excludes overlapping executions exactly while its parent context is live
  (`OverlapIffClosed`, `OverlapAfterClose`).
- `routine` of `util/blockeddoor.go` calls `BLock` in a goroutine of its own, so an `Update` of the same door
  can be called first, and `BLock` can come while it runs. Then the door is handed an older parameter after a
  newer one; and if it had taken the newer one before `BLock` took the older, the newer one is lost, although
  `Update` returns without an error. Nothing else goes back or gets lost (`NeverHandsOlderIff`,
  `NoLostUpdateIff`, `LateBLockLosesUpdate`, `BLockWithinUpdateLosesIt`); doors that take no update until `BLock`
  has its parameter lose nothing (`RefusingDoorsLoseNothing`).
- `Remove` of a blocked door is asked to make `BLock` exit, but a `BLock` that has not been called, or has not
  come so far that it can be stopped, runs on after the routine has returned (`RunsAfterLeaveIff`).
- The log line "SFUStatus to be deleted not exists" (service.go:137) and the branch under the test
  `recvCount <= 0` (service.go:172-173) are never reached: the inner loop is left only with a positive count.
- `WatchDogWithBlockedDoor` and `Bridge` have value receivers. The context that `Watch` makes and the track
  that `Bridge.Update` stores are lost, so `Leave` does not stop the routine and the check of `DstSessionId`
  never fails. Nothing is claimed of `Leave` there, and `routine` takes its context as given.

## Model

| member | source | states |
|---|---|---|
| Proto.SecondReadingIff | util/pbimpl.go:13-15 | a text joined by a separator that cannot overlap itself has a second reading exactly when one of the two fields holds the separator |
| Proto.ForwardKeyAmbiguousIff | util/pbimpl.go:39-42 | the key of a forwarded track stands for one pair of node id and remote session, except exactly when one of them holds the separator text |
| Proto.ClientKeyAmbiguousIff | util/pbimpl.go:13-15 | two different client sessions share a key with a given one exactly when its user or session holds the separator text |
| Proto.ProceedKeyIff | util/pbimpl.go:68-71 | two processed tracks have the same key exactly if they have the same destination session |
| SetMaps.SetMap.Add | util/setmap.go:13-19 | the pair is added, no other pair changes, and no key has an empty set |
| SetMaps.SetMap.Remove | util/setmap.go:22-29 | the pair is removed, and its key too when its set gets empty |
| SetMaps.SetMap.Exists | util/setmap.go:32-39 | yes exactly for the pairs in the map |
| SetMaps.SetMap.GetSet | util/setmap.go:42-53 | the values of a key, each once, in any order |
| SetMaps.SetMapaMteS.Add | util/setmap.go:69-72 | the pair is added and the two maps stay exact transposes without empty sets |
| SetMaps.SetMapaMteS.Remove | util/setmap.go:74-77 | the pair is removed and the two maps stay exact transposes |
| SetMaps.SetMapaMteS.RemoveValue | util/setmap.go:79-86 | exactly the column of the value goes, with the keys that had nothing else |
| SetMaps.SetMapaMteS.RemoveKey | util/setmap.go:88-95 | exactly the row of the key goes |
| SetMaps.SetMapaMteS.GetKeys | util/setmap.go:97-99 | the keys related to a value, each once |
| SetMaps.SetMapaMteS.GetUniqueValues | util/setmap.go:102-112 | without repetition exactly the values of the key that belong to no other key |
| SetMaps.SetMapaMteS.GetUniqueKeys | util/setmap.go:115-125 | without repetition exactly the keys whose set is the value alone |
| SetMaps.SamePairsSameMap | util/setmap.go:22-29 | with no empty sets kept, maps that hold the same pairs are equal |
| SetMaps.TransposeUnique | util/setmap.go:55-67 | a relation has exactly one transpose, so the reverse map carries no state of its own |
| SetMaps.RemovalsAreDual | util/setmap.go:79-95 | removing a value from a relation is removing a key from its transpose, and conversely |
| IsglbRecv.LastByNidIs | pkg/isglb/service.go:190-194 | the dictionary has exactly the node ids of the algorithm's list, each with its last status |
| IsglbRecv.ConsumeKeepsTracked | pkg/isglb/service.go:129-168 | every message keeps the saved statuses to exactly the node ids with a stream, and every id a deleted stream leaves without one had a saved status |
| IsglbRecv.ReportsAfter | pkg/isglb/service.go:147-153 | after any message the saved reports are those before and the one it carries |
| IsglbRecv.TableAfter | pkg/isglb/service.go:129-168 | after any message: the reported status under its id, gone what a deleted stream leaves without a stream, everything else as before |
| IsglbRecv.CountedIffChanged | pkg/isglb/service.go:129-168 | a message is counted exactly when it changes the table or the saved reports, a deletion once for each id that goes |
| IsglbRecv.DeletedLeaves | pkg/isglb/service.go:129-141 | deleting a stream removes exactly its pairs from the relation |
| IsglbRecv.RowsThenValue | pkg/isglb/service.go:130-140 | removing the rows that only have the stream and then the stream equals removing the stream |
| IsglbRecv.SendKeepsTrackedIff | pkg/isglb/service.go:201-209 | recording a sent status keeps table and relation in step exactly when its node id has a stream, the guard of the code |
| IsglbRecv.RecvLoop.Receive | pkg/isglb/service.go:129-168 | one message changes relation, table, saved reports and count as specified, saves its report and loses none, and the invariant is kept |
| IsglbRecv.RecvLoop.Delete | pkg/isglb/service.go:129-141 | the deletion with its loop over unique keys does what deleting the stream means |
| IsglbRecv.RecvLoop.DeleteRows | pkg/isglb/service.go:130-139 | exactly the ids that have only this stream lose row and status, each counted once; the missing-status branch is dead |
| IsglbRecv.RecvLoop.Collect | pkg/isglb/service.go:176-188 | all saved statuses and reports, each once, in any order |
| IsglbRecv.RecvLoop.Dispatch | pkg/isglb/service.go:196-213 | a status is sent only if it is new, on a stream of its id that has a channel, and is then recorded; it is skipped only for one of three reasons |
| IsglbRecv.RecvLoop.DispatchAll | pkg/isglb/service.go:195-214 | over a whole dictionary in any order: what is sent, what is skipped, and that exactly the sent ones are recorded |
| IsglbRecv.RecvLoop.Batch | pkg/isglb/service.go:176-214 | a whole batch for any algorithm and any changes of the channels meanwhile |
| IsglbRecv.RecvLoop.ByNid | pkg/isglb/service.go:190-194 | the dictionary built from the algorithm's list |
| IsglbSystem.InvKept | pkg/isglb/service.go:57-216 | every atomic step of streams, readers, starters and receive loop keeps the invariant |
| IsglbSystem.SavedExactlyForStreams | pkg/isglb/service.go:129-214 | in every run the saved ids are exactly those with a stream, each under its own id and reported by some stream, whatever the algorithm returns |
| IsglbSystem.FiledExactlyWhileAlive | pkg/isglb/service.go:57-141 | a stream is filed under an id exactly while it has reported it and its delete message is not consumed; that message is its last |
| IsglbSystem.AllGoneLeavesNothing | pkg/isglb/service.go:57-141 | when the delete messages of all opened streams are consumed, relation and table are empty |
| IsglbSystem.NeverSendsTwiceInARow | pkg/isglb/service.go:154-214 | the saved status is the last received or sent one, and between two sends of one status another status of that id was received or sent |
| IsglbSystem.ChannelsSafe | pkg/isglb/service.go:65-79 | no channel is closed twice or sent to when closed; sendChs is the set of open channels, those of the registered streams, each with a reader that runs or is about to; one receive loop runs or is about to |
| IsglbSystem.BlockedSendCompletes | pkg/isglb/service.go:206-230 | a send that blocks with the lock held completes by at most one step of its reader, which needs no lock |
| IsglbBatches.QueueIsPushed | pkg/isglb/service.go:57-100 | the queue holds exactly the requests and deletions that the streams pushed, in order, and never more than 4096 wait in it |
| IsglbBatches.LifeOfStream | pkg/isglb/service.go:57-100 | a call of SyncSFU registers, serves, leaves, unregisters and deletes in this order and once each, and receives only while it serves |
| IsglbBatches.StartersAre | pkg/isglb/service.go:81-82 | every served stream starts one goroutine that tries to run the receive loop, and each tries once |
| IsglbBatches.ReportsOfRound | pkg/isglb/service.go:106-153 | in a round of the receive loop the saved reports are those of the messages consumed since it began |
| IsglbBatches.CountOfRound | pkg/isglb/service.go:104-174 | the count of a round is positive, and the algorithm can run, exactly if a message of the round changed the table or the reports |
| IsglbBatches.BatchIs | pkg/isglb/service.go:176-189 | a batch ends with an empty queue and after some change; the algorithm is given, once each, the statuses last received or sent of exactly the ids with a stream, and the distinct reports of this round |
| IsglbBatches.BatchGoesOn | pkg/isglb/service.go:190-214 | during the dispatch exactly the ids of the algorithm's list not handled yet are to come, each with its last status there, and only such statuses are sent |
| IsglbBatches.BatchCompletes | pkg/isglb/service.go:195-214 | when the loop goes on, every id of the list was handled exactly once: skipped or sent |
| IsglbBatches.SkippedOnlyFor | pkg/isglb/service.go:196-213 | a status is skipped only if it is the last one of its id, the id has no stream, or a stream of it is unregistered |
| IsglbBatches.SentOnlyTo | pkg/isglb/service.go:196-209 | a status is sent only to a registered stream of its id, and only if it is not the last one of that id |
| IsglbBatches.DispatchNeverStuck | pkg/isglb/service.go:195-214 | each id to come can be skipped or sent at any time |
| SendConflation.InvKept | pkg/isglb/service.go:218-269 | every interleaving of reader and senders keeps the lanes in order |
| SendConflation.ReaderNeverBlocks | pkg/isglb/service.go:258-267 | the push without a guard can always be done, whether or not the sender still runs |
| SendConflation.PickedIsSubsequence | pkg/isglb/service.go:237-256 | giving out at increasing positions gives out a subsequence |
| SendConflation.ConflatesInOrder | pkg/isglb/service.go:237-267 | what is given to sig.Send for an id is a subsequence of what was pushed, and whenever the reader is not at work on that id the newest is buffered or given |
| SendConflation.SenderIs | pkg/isglb/service.go:237-256 | a sender goroutine has ended exactly if sig.Send failed for good or its channel was closed and empty, and it sends one status at a time |
| SendConflation.ClosedIff | pkg/isglb/service.go:219-230 | the channels are closed exactly if sendCh was found closed, and nothing is taken from it then |
| SendConflation.StopsWithNothingLeft | pkg/isglb/service.go:219-242 | a sender goroutine that ends because its channel is closed has given the newest status to sig.Send |
| SendPath.InvKept | pkg/isglb/service.go:57-269 | every step of the service and of all readers keeps each reader at exactly what was sent to its stream |
| SendPath.DeliverIsFree | pkg/isglb/service.go:206-230 | whenever the service alone can deliver, it can with the readers |
| SendPath.SoonEnabled | pkg/isglb/service.go:57-269 | any other step of the service alone is possible here too, after at most three steps of one reader, which wait for nobody |
| SendPath.EveryServiceRunLifts | pkg/isglb/service.go:57-269 | every run of the service is what the service does in some run with the readers, so none is excluded |
| SendPath.GivenIsSubsequenceOfSent | pkg/isglb/service.go:195-269 | end to end: what is given to sig.Send of a stream for an id is a subsequence of what the receive loop sent there, and the last one sent is buffered or given |
| KeyOrder.LessTransitive | util/set.go:143-145 | the comparison of keys is transitive |
| KeyOrder.LessTotal | util/set.go:143-145 | any two keys are equal or ordered |
| KeyOrder.LessAsymmetric | util/set.go:143-145 | no two keys are ordered both ways |
| KeyOrder.LessIs | util/set.go:143-145 | a key comes first exactly if it is a proper prefix of the other or smaller at the first different character |
| DisorderSets.DisorderSet.constructor | util/set.go:27-29 | the set starts empty |
| DisorderSets.DisorderSet.FromList | util/set.go:131-137 | the set built from a list holds its keys, each with the last item |
| DisorderSets.DisorderSet.Add | util/set.go:32-37 | the item is filed under its key and nothing else changes |
| DisorderSets.DisorderSet.Del | util/set.go:40-42 | the key of the item is removed and nothing else changes |
| DisorderSets.DisorderSet.Exist | util/set.go:45-50 | yes exactly when this very item is filed |
| DisorderSets.DisorderSet.Reset | util/set.go:57-61 | all marks are cleared and no item changes |
| DisorderSets.DisorderSet.Update | util/set.go:65-99 | for any list and any earlier marks: the new contents are the list's, and the three lists are its diff |
| DisorderSets.DisorderSet.DropUnchecked | util/set.go:90-96 | exactly the items whose key is not in the list are removed and returned, each once |
| DisorderSets.DisorderSet.IsSame | util/set.go:102-127 | yes exactly when the keys agree and every item of the list is the one filed; the contents stay |
| DisorderSets.DisorderSet.Sort | util/set.go:152-161 | the canonical list, whatever the order of the map |
| DisorderSets.AddsKeys | util/set.go:81-87 | the started items have distinct keys, those of the list that were not in the set |
| DisorderSets.SizesBalance | util/set.go:65-99 | for any list, new size = old size + started - stopped |
| DisorderSets.DiffIsMinimal | util/set.go:69-96 | with distinct keys, started are exactly the items of new keys and replaced exactly those that changed, with what they replace |
| DisorderSets.ReplayYieldsKeys | pkg/sxu/syncer/syncer.go:121-135 | replaying a diff gives the keys of the list, whatever the parameters were |
| DisorderSets.ReplayedItem | pkg/sxu/syncer/syncer.go:123-135 | replaying gives a known key its last item in the list and a new key its first |
| DisorderSets.ReplayYieldsListIff | pkg/sxu/syncer/syncer.go:123-135 | replaying gives the items of the list exactly when no new key comes with two different items first and last |
| DisorderSets.DistinctIsSettled | pkg/sxu/syncer/syncer.go:121-151 | distinct keys meet that condition |
| DisorderSets.CanonicalIs | util/set.go:152-161 | the canonical list is strictly increasing by key and holds exactly the items |
| DisorderSets.SortedIsCanonical | util/set.go:152-161 | any list strictly increasing by key is the canonical list of its items |
| DisorderSets.SameIffNoDiff | util/set.go:65-127 | IsSame says yes exactly when Update would return three empty lists |
| DisorderSets.CanonicalForm | util/set.go:102-161 | equal contents, equal canonical lists, IsSame with the other's canonical list, and an empty diff are all the same |
| TrackRouters.TrackRouter.Start | pkg/sxu/forward.go:52-66 | the key's watchdog is given this track, once, an existing one is kept, and no other watchdog is given or told anything |
| TrackRouters.TrackRouter.Stop | pkg/sxu/forward.go:68-74 | the key is gone and its watchdog was told to leave, once in its life; the others are left alone |
| TrackRouters.TrackRouter.Replace | pkg/sxu/forward.go:76-89 | ignored for different keys or a missing one, else the kept watchdog is given the new track once; the others are left alone |
| TrackRouters.TrackRouter.Replay | pkg/sxu/syncer/syncer.go:124-135 | the three loops over a diff amount to stopping, then replacing, then starting |
| TrackRouters.OpKept | pkg/sxu/forward.go:52-89 | start, stop and replace keep each watchdog under its key, told to leave never while in the map and once afterwards |
| WatchedTracks.InvKept | pkg/sxu/forward.go:52-89 | every step of a router and of all its watchdogs' routines keeps each routine at what its watchdog was given |
| WatchedTracks.DoorsHaveLastGiven | pkg/sxu/proceed.go:32-68 | in any run, a key whose routine is at rest has a door with the track last given for it, with blocked doors exactly unless a late BLock undid the update |
| WatchedTracks.DoorsHaveTracksOfSet | pkg/sxu/syncer/syncer.go:121-151 | end to end: a door at rest has the track that the set of the syncer holds for its key |
| TrackRouters.CompareProceedTracks | util/pbimpl.go:72-80 | the comparison of proceeded tracks, with its set built from a list, is plain equality |
| TrackRouters.ListMatchesOwnSet | util/pbimpl.go:73-78 | a list always matches the set built from it |
| Syncer.SyncTracks | pkg/sxu/syncer/syncer.go:121-135 | set and router keep the same keys for any list, and the same tracks exactly when the list settles its new keys |
| Syncer.ISGLBSyncer.constructor | pkg/sxu/syncer/syncer.go:55-75 | a new syncer has empty sets and routers and a notification pending |
| Syncer.ISGLBSyncer.NotifySFUStatus | pkg/sxu/syncer/syncer.go:92-98 | a notification is pending |
| Syncer.ISGLBSyncer.OnSFUStatusRecv | pkg/sxu/syncer/syncer.go:76-83 | the first select of the callback drops a waiting status; the received one is the newest and about to be pushed |
| Syncer.ISGLBSyncer.PushReceived | pkg/sxu/syncer/syncer.go:84-87 | the second select never drops it, even if the main loop took in between: the newest status waits afterwards |
| Syncer.ISGLBSyncer.SyncStatus | pkg/sxu/syncer/syncer.go:104-152 | a rejected status changes no track set or router and leaves a notification pending; an accepted one sets both track sets, and the routers follow exactly when no new key is doubled |
| Syncer.ISGLBSyncer.SyncBoth | pkg/sxu/syncer/syncer.go:121-151 | the same of the part after the checks |
| Syncer.ClientsAfterIs | pkg/sxu/syncer/syncer.go:156-166 | an added session is present under its key, a removed one absent, and every other key is as before |
| Syncer.ClientsOfIs | pkg/sxu/syncer/syncer.go:156-166 | after any events a key is present exactly if its last event added a session, and holds that session |
| Syncer.AcceptsIff | pkg/sxu/syncer/syncer.go:104-119 | a status is accepted exactly if it is for this node and its clients differ in nothing from the present ones |
| Syncer.ISGLBSyncer.HandleSessionEvent | pkg/sxu/syncer/syncer.go:156-166 | the event is the last one taken, the clients are those of all events taken, and a notification is pending |
| Syncer.ISGLBSyncer.BuildStatus | pkg/sxu/syncer/syncer.go:183-193 | the status built names this node, and each of its three lists is strictly increasing by key and holds exactly the contents of its set |
| Syncer.ISGLBSyncer.TakeEventCh | pkg/sxu/syncer/syncer.go:173-177 | the oldest event is taken and handled, the order of all events stays, and nothing else of the node changes |
| Syncer.ISGLBSyncer.TakeStatusCh | pkg/sxu/syncer/syncer.go:178-182 | the waiting status is taken and rejected or synced as SyncStatus says; with distinct track keys the routers keep following the sets |
| Syncer.ISGLBSyncer.Arrive | pkg/sxu/syncer/syncer.go:76-88 | what others put into the channels changes nothing the node holds, and a status waits only if it was received |
| Syncer.ISGLBSyncer.MainStep | pkg/sxu/syncer/syncer.go:168-196 | one turn of the main loop takes no event or status out of order, and has the effects that Next states |
| Syncer.ISGLBSyncer.Next | pkg/sxu/syncer/syncer.go:168-196 | whatever happens next: the client set is that of the last built status or a notification is pending, track sets and routers change only for a status that matches node and clients now, and the newest received status is on its way, waits or was taken |
| Syncer.ISGLBSyncer.Run | pkg/sxu/syncer/syncer.go:168-196 | over any run the clients are those whose last event taken added them, router keys equal set keys, and router parameters equal the stored tracks as long as received statuses list every track key once |
| DisorderSets.DoubledKeyReplayed | pkg/sxu/syncer/syncer.go:123-135 | for any two items of one new key the replay gives the first and the set holds the second |
| Syncer.DuplicateKeyDiverges | pkg/sxu/syncer/syncer.go:123-135 | a new key listed twice leaves the watchdog with the first track and the set with the second |
| ClosedLoop.UpdateSFUStatus | algorithms/impl/stupid.go:12-32 | each status without the track gets it appended, the others stay |
| ClosedLoop.StupidOnce | algorithms/impl/stupid.go:14-31 | a status changes exactly when the track is missing, in its forwarded tracks only, to which nothing but the track is appended; a second application changes nothing |
| ClosedLoop.IsStupidIff | algorithms/impl/stupid.go:17-19 | the track is recognised exactly by its service and its key |
| ClosedLoop.ExpectedInAnyOrder | pkg/isglb/service.go:176-194 | the expected dictionary does not depend on the order in which the table was listed |
| ClosedLoop.ServerRound | pkg/isglb/service.go:103-216 | the receive loop, on one report with all channels open, makes exactly the round of the closed loop |
| ClosedLoop.NodeSync | pkg/sxu/syncer/syncer.go:104-152 | the syncer makes exactly the sync of the closed loop |
| ClosedLoop.NodeReports | pkg/sxu/syncer/syncer.go:183-193 | the status that the syncer builds is the one that a node of the closed loop reports |
| ClosedLoop.SyncReaches | pkg/sxu/syncer/syncer.go:104-152 | after an accepted status with distinct track keys the node reports exactly its tracks of both kinds; any other status changes nothing |
| ClosedLoop.SyncAddsTrack | pkg/sxu/syncer/syncer.go:104-152 | a node sent its own status with the track added accepts it and adds just that track |
| ClosedLoop.SyncedHasTrack | pkg/sxu/syncer/syncer.go:104-152 | its own status has the track from then on |
| ClosedLoop.SentOnlyToReporter | pkg/isglb/service.go:189-214 | once all saved statuses have the track, a round sends at most to the reporting node, and only if its status lacks the track |
| ClosedLoop.Converges | pkg/isglb/service.go:161-214 | in any order of reports, from any states: at most one status is sent to a node, and from its second report on the table has its canonical status and a report does not run the algorithm |
| Mailbox.BoxKept | util/watchdog.go:135-148 | the poster's steps, interleaved with a taker, keep the newest value in the channel or taken, and the second push never gives up |
| Mailbox.TakeKeeps | util/watchdog.go:124-125 | what is taken is newer than everything taken before |
| BlockedDoor.InvKept | util/blockeddoor.go:80-145 | every step of poster, routine, doors and the goroutines that call BLock keeps the invariant; the calls of BLock and Update overlap freely |
| BlockedDoor.HandedBackOnlyLate | util/blockeddoor.go:101-141 | of any two values handed to doors the later one is older exactly when an update of a door came before its BLock; so nothing goes back across doors, after BLock, or among updates |
| BlockedDoor.LostIff | util/blockeddoor.go:102-145 | the routine waits with a parameter that the door neither has nor will be given exactly since BLock took an older one on a door that had taken it, be it during the Update or after |
| BlockedDoor.NoLostUpdateIff | util/blockeddoor.go:61-145 | the last posted value waits or is param; in the select the door has param or param waits for a retry, and with both channels empty the door has the newest value, exactly without such a late BLock |
| BlockedDoor.RefusingDoorsLoseNothing | util/blockeddoor.go:61-145 | no update is ever lost on doors that take none until their BLock has its parameter |
| BlockedDoor.LateBLockLosesUpdate | util/blockeddoor.go:102-138 | a run in which the update is over before BLock is called, the values go back and the older one stays |
| BlockedDoor.BLockWithinUpdateLosesIt | util/blockeddoor.go:102-138 | a run that ends the same with BLock called in the middle of the Update |
| BlockedDoor.NeverHandsOlderIff | util/blockeddoor.go:101-141 | over a run, values handed to doors never go back to an older post exactly when no BLock is called on a door that was asked to update before |
| BlockedDoor.HandsNewest | util/blockeddoor.go:133-141 | a door is asked to update only with the newest posted value, if no post is under way |
| BlockedDoor.OneDoorRuns | util/blockeddoor.go:83-130 | at most one BLock is called and not returned, that of the door in use, and none at the head of the loop |
| BlockedDoor.RunsAfterLeaveIff | util/blockeddoor.go:128-130 | after the routine has seen its context cancelled BLock can be running exactly if it had not been called, or not come so far that Remove stops it, by then |
| BlockedDoor.ReturnedIff | util/blockeddoor.go:83-130 | the routine has returned exactly if it saw its context cancelled, and that is cancelled exactly if somebody did so |
| BlockedDoor.NeverStuck | util/blockeddoor.go:80-145 | the routine can always go on, unless it waits with a blocking door, a live context and empty channels |
| UnblockedDoor.InvKept | util/watchdog.go:78-133 | every step of poster, loop and doors keeps the invariant, stale broken signals included; which result does what is said by RemovedIff and SuccessKeepsDoor |
| UnblockedDoor.DoorsRemovedOnce | util/watchdog.go:78-133 | at most one door is live; doors are removed once each, in the order bought, before the next is bought or the loop returns |
| UnblockedDoor.WaitsWithCurrentParam | util/watchdog.go:103-133 | whenever the loop waits, the door was last locked with the newest value taken, and with the mailbox at rest with the newest posted |
| UnblockedDoor.RemovedIff | util/watchdog.go:85-129 | a door is removed exactly if it was bought as a fake, or Lock, Repair or Update of it failed, or the loop was left with it |
| UnblockedDoor.SuccessKeepsDoor | util/watchdog.go:103-129 | after Lock, Repair or Update has succeeded the same door is in use |
| UnblockedDoor.WaitsAfterLock | util/watchdog.go:103-133 | the loop waits exactly from a successful Lock until it does something else, so it locks again after every repair and update |
| UnblockedDoor.BrokenIff | util/watchdog.go:79-84 | a broken signal waits exactly if one was given since the last one was seen |
| UnblockedDoor.ReturnedIff | util/watchdog.go:85-115 | the loop has returned exactly if it was cancelled when it waited or when no door could be bought or locked |
| UnblockedDoor.CancelledIff | util/watchdog.go:152-154 | the context is cancelled exactly if Leave was called |
| UnblockedDoor.NeverStuck | util/watchdog.go:78-133 | the loop can always go on, unless it waits with no signal, no update and a live context |
| Bridges.Bridge.constructor | pkg/sxu/bridge/bridge.go:47-56 | a new bridge has no entrance |
| Bridges.Bridge.Update | pkg/sxu/bridge/bridge.go:69-108 | on success the keys are exactly the distinct source sessions, surviving ones keep their watchdog, and only dropped ones are told to leave; on failure nothing changes |
| Bridges.Bridge.CreateMissing | pkg/sxu/bridge/bridge.go:86-93 | each missing session gets one new watchdog |
| Bridges.Bridge.LeaveAllBut | pkg/sxu/bridge/bridge.go:95-105 | exactly the sessions not to be kept lose their watchdog, each told to leave once |
| Bridges.Bridge.Remove | pkg/sxu/bridge/bridge.go:161-168 | the map is empty and every watchdog ever created was told to leave exactly once |
| Reconnect.InvKept | util/client.go:104-163 | every atomic step of any goroutine keeps the invariant while the top context is live; what is stored and read is said by StreamIs and ReadIsCurrent |
| Reconnect.ReconnectIsFresh | util/client.go:155-163 | when a call of Reconnect has returned, an attempt was counted after it began, even if the uint32 counter has wrapped |
| Reconnect.SwitchIsRead | pkg/sfu/client.go:108-111 | when Switch has returned, an attempt was counted after its parameter was stored, and every attempt since reads that one or a later one |
| Reconnect.OneOperation | util/lock.go:24-46 | while the parent is live, at most one goroutine is inside the operation |
| Reconnect.OneStreamLive | util/client.go:110-121 | at most one stream context is live, and that of the stored stream is cancelled exactly if a newer one was made, by an attempt counted later |
| Reconnect.StreamNeverOlder | util/client.go:110-121 | the stored stream is never replaced by one of an older attempt |
| Reconnect.StreamIs | util/client.go:117-121 | the stored stream is that of the last attempt whose creation succeeded, and there is none exactly if none has |
| Reconnect.ReadIsCurrent | pkg/sfu/client.go:42-60 | what the creation of a stream reads is the parameter stored at that moment |
| Reconnect.SecondIff | util/client.go:155-163 | unless the counter wraps in between, reconnect runs a second time exactly if no attempt was counted between the two looks |
| Reconnect.EntersTwiceAtMost | util/client.go:104-163 | a plain call comes to SingleWaitExec.Do once, and a call of Reconnect at most twice |
| Reconnect.EndedIff | util/lock.go:24-46 | the context of an execution is cancelled exactly when its operation has ended |
| Reconnect.NobodyWaitsInVain | util/lock.go:24-46 | with the parent live a call can go on, or waits for an execution whose goroutine can |
| Reconnect.OverlapIffClosed | util/lock.go:24-46 | from any state some continuation has two goroutines inside the operation exactly if the parent is cancelled |
| Reconnect.OverlapAfterClose | util/lock.go:24-46 | a run from the start in which two are inside it after the parent is cancelled |
| Reconnect.WaitOver | util/lock.go:41-43 | who has waited for an execution knows that all begun before its call are over |
| Reconnect.CounterMoved | util/client.go:155-160 | the counter reads larger only if an attempt was counted in between |
| ExpireSetMaps.ExpireSetMap.HandleUpdate | util/timer.go:59-74 | the pair is present, a timer was created only if it was absent, and every pair has exactly one expiry on its way |
| ExpireSetMaps.ExpireSetMap.NewEntry | util/timer.go:63-72 | the same of a new pair |
| ExpireSetMaps.ExpireSetMap.NewTimer | util/timer.go:76-94 | one more timer is created and waited for |
| ExpireSetMaps.ExpireSetMap.HandleDelete | util/timer.go:96-107 | the pair was present, is removed with an emptied key, and the handler was called for it once |
| ExpireSetMaps.ExpireSetMap.Fire | util/timer.go:80-83 | the goroutine of a fired timer goes on to queue the deletion |
| ExpireSetMaps.ExpireSetMap.Push | util/timer.go:84-89 | it queues the deletion when there is room |
| ExpireSetMaps.ExpireSetMap.TakeDeleteCh | util/timer.go:47-49 | the oldest queued pair, and no other, is deleted and reported |
| ExpireSetMaps.ExpireSetMap.Run | util/timer.go:38-53 | over any run before Stop the state is as specified; each present pair has exactly one outstanding expiry, creations are reported deletions plus the present pairs, and no key is empty |
| ExpireSetMaps.OneExpiryPerPair | util/timer.go:59-107 | the same of one pair: one outstanding expiry and one open creation if present, none if not |
| ExpireSetMaps.FirstInFirstOut | util/timer.go:47-49 | pairs are deleted in the order in which they were queued, and never more than 64 wait |
| ExpireSetMaps.GoodKept | util/timer.go:59-107 | each thing that can happen keeps one outstanding expiry for each present pair and none for others |
| ExpireSetMaps.WaitingSurvives | util/timer.go:80-94 | a pair whose goroutine waits stays, whatever else happens, until its timer fires |
| ExpireSetMaps.RefreshSavesIff | util/timer.go:59-94 | after a refresh the pair stays until its timer fires again, in every continuation, exactly when its expiry was neither queued nor about to be |
| ExpireSetMaps.LateRefreshReached | util/timer.go:59-107 | from the empty map on: a pair is added, its timer fires, its deletion is queued, it is refreshed, found present, and deleted |
| ExpireSetMaps.LateRefresh | util/timer.go:61-62 | in any state with a queued deletion, a refresh of its pair does not save it |

## Left out

- What a door does with a parameter it takes: `pkg/sxu/signaller` is not part of this model. An `Update` that
  returns without an error has taken its parameter here, as the interface asks (util/blockeddoor.go:22-24);
  `Signaller.Update` also returns so when it only asks the door to stop (signaller.go:116-120).
- WebRTC, SDP, ICE and RTP, NATS, gRPC, discovery, ffmpeg, configuration and logging: doors, streams, stream
  creation and processors are abstract and may succeed or fail at any time.
- Nil messages: `SFUStatusItem.Key` and the track keys fail on a status without a node or a track without a
  source; here every message has its parts. A map of expiring pairs without an `onDeleted` handler fails in
  `handleDelete`; here a handler is always set.
- Wall-clock time: timers may fire at any moment; `DiscoveryExpire` and the like have no meaning here.
- Liveness: that a node id whose first stream has no send channel is tried on another stream, or that a sent
  status arrives, is not guaranteed by the code.
- `WatchDogWithBlockedDoor.Watch` and `Leave`: their writes go to copies of the receiver; only `routine` and
  `Update` are modelled.
- Several goroutines that call one watchdog's `Update` at the same time: the routers call it from one
  goroutine, and `Mailbox` has one poster.
- Closing the channels of the syncer (`Stop`) and of the expiring map (`Stop`): runs end before it.
- `SingleLatestExec.Do`, `Registry`, `StringDisorderSetItem` conversions and the list conversions of
  `util/pbimpl.go`: only easy members.
- The pointers to `itemTuple` in the index of a set and the inner maps of a `SetMap`: they are never shared,
  so the model updates them as values in the outer map; a timer is only counted, because resetting it shows
  in nothing but time.
- Two calls of the status callback at the same time: the read loop of the client makes them one by one.
- Send and `Connected` of `util/client.go`: a failed operation only leads to a plain `reconnect`, which
  `Reconnect.CallPlain` starts at any moment.
