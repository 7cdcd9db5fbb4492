# Models of the audio framework's stateful components

This project models seven components of the audio framework and proves what they keep over whole runs.  Each model does
what the code does, branch by branch; the statements quantify over every input, every schedule and every answer of the
systems the code calls.

**Lock-free request queue** (`NoLockQueue*.dfy`).  Producers pop nodes from a free list and push them on a pending list;
one consumer detaches the pending list, returns its nodes and runs the requests from the last to the first.  The model is
a state machine with one atomic access per step, any number of producers and every interleaving.  List heads are pairs of
an allocation tag and an index.  `NoLockQueueClass.dfy` gives the loops of the code, with the other threads moving
between any two accesses, and shows that each call is a run of the state machine.

**SCO link** (`ScoModel.dfy`, `ScoTheorems.dfy`, `ScoCommands.dfy`, `HfpPolicy.dfy`, `ScoManager.dfy`).  The link manager has four live
states, a one-slot cache and a timer; the policy driver turns scene, recognition, recording and virtual-call state into
requests.  The hands-free stack is an arbitrary sequence of answers.  The functions say what each entry point makes of
the fields and which commands it issues; the classes do it in place.

**PCM ring** (`RingArithmetic.dfy`, `PcmWindow.dfy`, `PcmBuffer.dfy`, `PcmConcurrent.dfy`).  A multi-frame buffer stands
for a window over an unbounded history that starts silent.  The class works on the flat float buffer with its padded
slices.  The state machine lets one pusher and one getter run at the same time, one access or one copied sample per step.

**Schedule guard** (`ScheduleGuard.dfy`, `ScheduleGuardClass.dfy`).  Creators, holders and destructors of shared guards,
one action inside or outside the mutex per step.  The class has the two sections that hold the mutex, in place.

**Diagnostic tree** (`DfxShape.dfy`, `DfxEdits.dfy`, `DfxTree.dfy`).  Ordered forests and their walks; what insertion,
removal and relabelling do to them; and the tree of heap nodes with its searches and loops.

**Sample formats** (`FloatRounding.dfy`, `FormatConvert.dfy`).  Floats are reals with 24 significant bits; rounding is any
rounding to nearest, which is shown to exist.  The conversions are the loops over arrays.

**Device lists** (`DeviceModel.dfy`, `DeviceFiling.dfy`, `DeviceTheorems.dfy`, `DeviceManager.dfy`).  Five lists and two
maps per profile; the actions of the stack on them, and what a crash of the Bluetooth service does, as functions and as a
class that changes them in place; and what holds over whole runs of both.

`Options.dfy` holds the optional value the components share.

## Findings

- In the connecting state a request that matches the link being set up succeeds and leaves an older cached request in
  place, so the last request does not always win (`OlderRequestSurvives`, `OlderRequestWins`).
- Clearing the active hands-free device resets the link manager only if the link in hand is that device's.  Otherwise a
  connect that waits for the cleared device stays cached and is issued when the link goes down
  (`ClearKeepsPendingConnect`, `PendingConnectForClearedDevice`).
- A push or store of too much data is refused, but the bounded copy zeroes the slot it was aimed at, which is without
  effect exactly when that frame was silent already or the push found the buffer full (`RefusedCopy`); a frame stored for
  a rewind can be lost to it (`RefusedPushSilencesStoredFrame`).
- The copy out of the ring into a single-frame buffer states its room as four times what the buffer has: the check passes
  exactly for frames of up to four times the buffer, while the copy, or the clearing when the check fails, stays inside
  the buffer exactly when the frame fits it or the buffer is empty (`GetFrameStaysInside`, `GetFrameLeavesBuffer`).
- A push or store of data shorter than a frame leaves the end of an old frame behind it (`ShortDataKeepsOldTail`).
- 8-bit samples do not survive the way to float and back: decoding scales by 128, encoding by 127 (`RoundTripU8`).
- A sample of exactly 1.0 is not capped, and its 16-, 24- and 32-bit encodings are out of range; 32-bit samples above
  2^31 - 64 decode to exactly 1.0 (`Encode16Range`, `Encode32Range`, `RoundTrip32`).  Louder samples are capped, so that in
  8 bits they give less than 1.0 does (`EncodeU8Range`).
- A connected device whose category is updated is not taken out of the privacy and common lists, so it can be in two lists
  at once (`CategoryUpdateFiles`, `CarKitStaysPrivate`).
- Selecting a watch for calls marks the headphone it is replaced by as worn if nothing was reported about it, and that is
  the only way the wear map departs from the last reports (`WearMapIsLastReport`, `GuessedAsWorn`).
- The error branches after the wait in `Create` and after the searches in `Remove` cannot be reached (`CreateReturns`,
  `Remove`).

## Model

| member | source | states |
|---|---|---|
| `NoLockQueue.StepInv` | services/audio_engine/utils/hpae_no_lock_queue.cpp:54-151 | every atomic access of every thread keeps the queue invariant: links carry the current allocation tag of their node, the lists and the nodes in hand are disjoint, stale snapshots stay stale |
| `NoLockQueue.InitInv` | services/audio_engine/utils/hpae_no_lock_queue.cpp:40-53 | the invariant holds once the nodes are threaded on the free list |
| `NoLockQueueTheorems.PopInstallsTrueSuccessor` | services/audio_engine/utils/hpae_no_lock_queue.cpp:112-127 | ABA safety in every interleaving: when the exchange of a pop succeeds, however old its snapshot, the tag is still the number of allocations of the node, the successor it read is still the successor, and exactly the top leaves the free chain |
| `NoLockQueueTheorems.NotReallocatedSinceSnapshot` | services/audio_engine/utils/hpae_no_lock_queue.cpp:112-127 | between the load of a head and the exchange that succeeds with it nobody allocated that node |
| `NoLockQueueTheorems.NodeConservation` | services/audio_engine/utils/hpae_no_lock_queue.cpp:100-139 | after any run the free chain, the pending chain, the detached remainder, the node in the consumer's hand and the nodes held by producers are together exactly the nodes of the queue, each once |
| `NoLockQueueTheorems.ChainUnique` | services/audio_engine/utils/hpae_no_lock_queue.cpp:129-139 | from a head there is only one chain through the next fields, so the chains of the other statements are the lists the code walks |
| `NoLockQueueTheorems.Fifo` | services/audio_engine/utils/hpae_no_lock_queue.cpp:129-151 | first in, first out and exactly once: what has run is a prefix of what a queue fed by the commits hands over at the detaches; between batches it is all of it; the pending chain read backwards is that queue |
| `NoLockQueueTheorems.LedgerKeepsEverything` | services/audio_engine/utils/hpae_no_lock_queue.cpp:67-83 | of the committed tasks none is lost or doubled: they are due, waiting or were thrown away by a reset, and without a reset they are due and waiting in commit order |
| `NoLockQueueTheorems.IsFinishProcess` | services/audio_engine/utils/hpae_no_lock_queue.cpp:153-160 | the pending head is empty exactly when every committed request has been taken over |
| `NoLockQueueTheorems.PushesAccounted` | services/audio_engine/utils/hpae_no_lock_queue.cpp:54-65 | every push that began has committed once, been dropped once or is under way |
| `NoLockQueueTheorems.DroppedOnlyWhenFull` | services/audio_engine/utils/hpae_no_lock_queue.cpp:54-127 | a step of any thread drops a request if and only if it is the load of a push of it while every node of the queue is in use; a failed exchange never drops one |
| `NoLockQueueProgress.FailedPopMeansInterference` | services/audio_engine/utils/hpae_no_lock_queue.cpp:119-125 | on every reachable configuration: if the exchange of a pop is about to fail, then after the load at which the free head was its snapshot another thread took a step that completed an exchange on the free head |
| `NoLockQueueProgress.FailedCommitMeansInterference` | services/audio_engine/utils/hpae_no_lock_queue.cpp:105-109 | the same for the exchange that pushes on the pending list |
| `NoLockQueueProgress.FailedDetachMeansInterference` | services/audio_engine/utils/hpae_no_lock_queue.cpp:71-74 | the same for the detach: after its load a producer's commit succeeded |
| `NoLockQueueProgress.FailedReturnMeansInterference` | services/audio_engine/utils/hpae_no_lock_queue.cpp:105-109 | the same for returning a node: after its load a producer's pop succeeded |
| `NoLockQueueProgress.ProcessingIsBounded` | services/audio_engine/utils/hpae_no_lock_queue.cpp:129-151 | on every schedule, processing a batch of n requests takes the consumer at most 6n + 2 steps plus three for every time another thread moved the free head, although its nodes are pushed again while it walks |
| `NoLockQueueProgress.PackedWords` | services/audio_engine/utils/hpae_no_lock_queue.cpp:85-98 | on 64-bit words the three helpers compute the parts of a link, equal words are equal links, and only the increment of the last tag wraps |
| `NoLockQueueProgress.NoWrapBelow2To32Pops` | services/audio_engine/utils/hpae_no_lock_queue.cpp:85-88 | a run with fewer than 2^32 pops meets no tag that does not fit in 32 bits |
| `NoLockQueueClass.HpaeNoLockQueue.constructor` | services/audio_engine/utils/hpae_no_lock_queue.cpp:27-53 | the constructor cuts the capacity down to the maximum and threads all nodes on the free list; with a capacity of zero there are no nodes and the heads are undetermined |
| `NoLockQueueClass.HpaeNoLockQueue.GetRequestNode` | services/audio_engine/utils/hpae_no_lock_queue.cpp:112-127 | the pop loop ends under every finite interference, with a node in hand whose tag is incremented, or with the request dropped |
| `NoLockQueueClass.HpaeNoLockQueue.PushRequestNode` | services/audio_engine/utils/hpae_no_lock_queue.cpp:100-110 | the push loop ends under every finite interference, having committed the request |
| `NoLockQueueClass.HpaeNoLockQueue.PushFreeNode` | services/audio_engine/utils/hpae_no_lock_queue.cpp:100-110 | the loop that returns a node to the free list ends, and the detached list is shorter by that node |
| `NoLockQueueClass.HpaeNoLockQueue.PushRequest` | services/audio_engine/utils/hpae_no_lock_queue.cpp:54-65 | the code of a push is a run of the protocol's steps by one thread; it ends with the request committed or dropped |
| `NoLockQueueClass.HpaeNoLockQueue.ProcessRequests` | services/audio_engine/utils/hpae_no_lock_queue.cpp:129-151 | walking the detached list ends because it gets shorter; the scratch vector is empty again and nothing committed meanwhile is lost |
| `NoLockQueueClass.HpaeNoLockQueue.HandleRequests` | services/audio_engine/utils/hpae_no_lock_queue.cpp:67-76 | whatever the producers do meanwhile, on return every task committed before the call has been executed, all executed tasks are the handed-over ones in commit order, and nothing was thrown away |
| `NoLockQueueClass.HpaeNoLockQueue.Reset` | services/audio_engine/utils/hpae_no_lock_queue.cpp:78-83 | whatever the producers do meanwhile, a reset ends; the tasks that were queued before it are thrown away, in commit order, and no task is run |
| `NoLockQueueClass.HpaeNoLockQueue.IsFinishProcess` | services/audio_engine/utils/hpae_no_lock_queue.cpp:153-160 | true exactly when no committed request waits |
| `ScoModel.StepInv` | frameworks/native/bluetoothclient/bluetooth_sco_manager.cpp:52-133 | every request, report and reset keeps the invariant and the command discipline, whatever the hands-free stack answers |
| `ScoTheorems.RunKeepsInvariant` | frameworks/native/bluetoothclient/bluetooth_sco_manager.cpp:38-470 | after any events: never the initial state; the timer exists exactly in the two transient states; a request is cached only there; one cached while disconnecting is a connect; a connect cached while connecting differs from the link in progress in device or call |
| `ScoTheorems.RunIsDisciplined` | frameworks/native/bluetoothclient/bluetooth_sco_manager.cpp:212-417 | over whole runs connect commands are issued only when disconnected, disconnect commands only when connected, and no connect takes effect while an earlier one stands |
| `ScoTheorems.SomethingBetweenConnects` | frameworks/native/bluetoothclient/bluetooth_sco_manager.cpp:212-254 | between two connect attempts that took effect there is a disconnect command, a report that the current link is down, or a reset |
| `ScoTheorems.NoSwitchIsSameCall` | frameworks/native/bluetoothclient/bluetooth_sco_manager.cpp:268-281 | no switch is needed exactly when both categories stand for the same call, so bypassing a request is sound |
| `ScoTheorems.ConnectContract` | frameworks/native/bluetoothclient/bluetooth_sco_manager.cpp:181-266 | from every reachable state a successful connect request is realised or is exactly the cached request; a failed one leaves the manager disconnected with nothing cached |
| `ScoTheorems.OlderRequestSurvives` | frameworks/native/bluetoothclient/bluetooth_sco_manager.cpp:256-266 | the last request does not always win: an older cached request survives a later one exactly when that one matches the link being set up |
| `ScoTheorems.OlderRequestWins` | frameworks/native/bluetoothclient/bluetooth_sco_manager.cpp:256-266 | a run in which it does: A, B while A comes up, then A again, which succeeds; once A is up it is taken down and B is connected |
| `ScoTheorems.DisconnectContract` | frameworks/native/bluetoothclient/bluetooth_sco_manager.cpp:283-336 | a disconnect request always succeeds and leaves no connect pending |
| `ScoTheorems.CachedConnectIsIssued` | frameworks/native/bluetoothclient/bluetooth_sco_manager.cpp:161-179 | a waiting connect is issued at once when the link goes down, for exactly the cached category and device |
| `ScoTheorems.CachedDisconnectIsIssued` | frameworks/native/bluetoothclient/bluetooth_sco_manager.cpp:111-121 | a disconnect that waited for the link to come up is carried out as soon as it is up |
| `ScoTheorems.QuietStep` | frameworks/native/bluetoothclient/bluetooth_sco_manager.cpp:52-133 | with no connect pending, an event that is not a connect request issues no connect command and leaves none pending |
| `ScoTheorems.DisconnectIsFinal` | frameworks/native/bluetoothclient/bluetooth_sco_manager.cpp:283-336 | after a disconnect request no sequence of stack events makes the manager connect before the next connect request, and a report that the current link is down settles it in the disconnected state with an empty cache |
| `ScoCommands.ConnectWhileDown` | frameworks/native/bluetoothclient/bluetooth_sco_manager.cpp:212-231 | a connect request while the link is down, by the stack's answers: the commands issued, with the call the category stands for and the one retry, and whether the link is up, coming up or down afterwards; a link that is there already counts as up |
| `ScoCommands.ConnectWhileMoving` | frameworks/native/bluetoothclient/bluetooth_sco_manager.cpp:256-266 | while the link is coming up or going down a connect request only goes to the cache, unless it matches the link coming up |
| `ScoCommands.ConnectWhileUp` | frameworks/native/bluetoothclient/bluetooth_sco_manager.cpp:233-254 | while the link is up a matching request changes nothing; any other takes the link down and waits, or is treated as from a link that is down when taking down fails |
| `ScoCommands.DisconnectWhileUp` | frameworks/native/bluetoothclient/bluetooth_sco_manager.cpp:311-326 | a disconnect request while the link is up, by the stack's answers: one command for the link's category, and if there is no such call one for the category the stack reports; the link is going down if that works and given up for down if not |
| `ScoCommands.DisconnectElsewhere` | frameworks/native/bluetoothclient/bluetooth_sco_manager.cpp:289-336 | in the other states a disconnect request takes out a waiting connect, and waits itself while the link is coming up |
| `ScoCommands.UpReport` | frameworks/native/bluetoothclient/bluetooth_sco_manager.cpp:52-159 | a report that the link is up, with nothing waiting: a link coming up is up, with nothing asked and nothing else changed; in the other states what the stack says is up is adopted, and without an answer all stays as it was |
| `ScoCommands.UpReportServesConnect` | frameworks/native/bluetoothclient/bluetooth_sco_manager.cpp:111-179 | a connect that waits when the link is reported up is not lost: it is realised, or waits on, or it failed with the manager disconnected |
| `ScoCommands.UpReportTakesDown` | frameworks/native/bluetoothclient/bluetooth_sco_manager.cpp:111-179 | a link that comes up while another connect waits is taken down for it |
| `ScoCommands.DownReport` | frameworks/native/bluetoothclient/bluetooth_sco_manager.cpp:52-133 | a report that the link is down, with no connect waiting, settles every state as disconnected with an empty cache and no timer |
| `ScoCommands.OtherReports` | frameworks/native/bluetoothclient/bluetooth_sco_manager.cpp:52-133 | reports about other devices, and reports that a link is about to come up or go down, change nothing |
| `ScoCommands.StartContract` | frameworks/native/bluetoothclient/bluetooth_sco_manager.cpp:38-50 | the manager starts with the link as the stack reports it and the category it names, if it names one |
| `ScoCommands.ResetContract` | frameworks/native/bluetoothclient/bluetooth_sco_manager.cpp:431-444 | a reset about the current device forgets the device, what waits and the link; any other does nothing |
| `ScoManager.BluetoothScoManager.constructor` | frameworks/native/bluetoothclient/bluetooth_sco_manager.cpp:38-50 | the manager starts with the active device, connected or disconnected, and asks for the category only when connected |
| `ScoManager.BluetoothScoManager.SetAudioScoState` | frameworks/native/bluetoothclient/bluetooth_sco_manager.cpp:446-470 | sets the state and keeps a timer exactly for the transient ones |
| `ScoManager.BluetoothScoManager.DisconnectReliable` | frameworks/native/bluetoothclient/bluetooth_sco_manager.cpp:400-417 | retries a refused disconnect once with the category the stack reports |
| `ScoManager.BluetoothScoManager.ProcConnectReqWhenDisconnected` | frameworks/native/bluetoothclient/bluetooth_sco_manager.cpp:212-231 | connects, restoring the active device once on failure |
| `ScoManager.BluetoothScoManager.ProcConnectReqWhenConnected` | frameworks/native/bluetoothclient/bluetooth_sco_manager.cpp:233-254 | bypasses a matching request; otherwise disconnects and caches, or connects at once if the disconnect fails |
| `ScoManager.BluetoothScoManager.HandleScoConnect` | frameworks/native/bluetoothclient/bluetooth_sco_manager.cpp:181-210 | in place, the connect step of the model the contracts are proved about |
| `ScoManager.BluetoothScoManager.HandleScoDisconnect` | frameworks/native/bluetoothclient/bluetooth_sco_manager.cpp:283-336 | in place, the disconnect step of the model |
| `ScoManager.BluetoothScoManager.ProcCache` | frameworks/native/bluetoothclient/bluetooth_sco_manager.cpp:161-179 | empties the cache, then serves the request |
| `ScoManager.BluetoothScoManager.UpdateState` | frameworks/native/bluetoothclient/bluetooth_sco_manager.cpp:52-133 | in place, the report step of the model |
| `ScoManager.BluetoothScoManager.ResetState` | frameworks/native/bluetoothclient/bluetooth_sco_manager.cpp:431-444 | a reset for another device does nothing; one for the current device clears cache, state and device |
| `HfpPolicy.PolicyRunIsDisciplined` | frameworks/native/bluetoothclient/audio_bluetooth_manager.cpp:463-743 | the link manager's invariant and discipline hold under every policy-driven run |
| `HfpPolicy.VirtualUnlessSomeoneDeclined` | frameworks/native/bluetoothclient/audio_bluetooth_manager.cpp:602-630 | over every run a call is virtual exactly when no service's last word was that its call is real |
| `HfpPolicy.JudgeMeans` | frameworks/native/bluetoothclient/audio_bluetooth_manager.cpp:638-656 | when each category is judged, as four equivalences |
| `HfpPolicy.TargetMeans` | frameworks/native/bluetoothclient/audio_bluetooth_manager.cpp:658-684 | there is no link to have if and only if no usable device is active, or no audible call, no recognition and no recording uses it |
| `HfpPolicy.FieldsAreLastTold` | frameworks/native/bluetoothclient/audio_bluetooth_manager.cpp:566-600 | over every run the scene, the recording and the recognition the policy judges by are what it was last told |
| `HfpPolicy.UpdateAligns` | frameworks/native/bluetoothclient/audio_bluetooth_manager.cpp:658-684 | after an update the disconnect contract holds when the target is no link, and on success the connect contract for the judged category and the active device; on failure the link manager is disconnected and nothing is cached |
| `HfpPolicy.EveryUpdateAligns` | frameworks/native/bluetoothclient/audio_bluetooth_manager.cpp:487-684 | the same, failure included, after every history of events and for every event that updates, also those that change the active device first; if the stack refuses that change, only the question to it has happened |
| `HfpPolicy.SwitchLeavesNothingPending` | frameworks/native/bluetoothclient/audio_bluetooth_manager.cpp:463-485 | a successful switch of the active device leaves no connect pending and no link standing |
| `HfpPolicy.SwitchMeans` | frameworks/native/bluetoothclient/audio_bluetooth_manager.cpp:463-485 | selecting the active address again leaves the link alone, up to the question asked; any other takes the old device's link down first; the device changes if and only if it is found and the stack agrees |
| `HfpPolicy.ClearMeans` | frameworks/native/bluetoothclient/audio_bluetooth_manager.cpp:532-542 | clearing a device that is not active does nothing; clearing the active one forgets it, and resets the link exactly if it is that device's |
| `HfpPolicy.OutsideMeans` | frameworks/native/bluetoothclient/audio_bluetooth_manager.cpp:686-743 | disconnects from outside and reports reach the link manager and change nothing else; a disconnect for a device other than the active one, and a report that is neither up nor down, do nothing |
| `HfpPolicy.ClearKeepsPendingConnect` | frameworks/native/bluetoothclient/audio_bluetooth_manager.cpp:532-542 | clearing the active device drops a pending connect exactly when the device cleared is the active one and the link in hand is its own |
| `HfpPolicy.PendingConnectForClearedDevice` | frameworks/native/bluetoothclient/audio_bluetooth_manager.cpp:532-542 | a run in which the connect of the cleared device stays pending |
| `ScoManager.AudioHfpManager.AllVirtual` | frameworks/native/bluetoothclient/audio_bluetooth_manager.cpp:619-630 | the loop over the map finds a service that declined if there is one |
| `ScoManager.AudioHfpManager.JudgeScoCategory` | frameworks/native/bluetoothclient/audio_bluetooth_manager.cpp:638-656 | in place, the judgement of the model, with one question to the stack |
| `ScoManager.AudioHfpManager.TryUpdateScoCategory` | frameworks/native/bluetoothclient/audio_bluetooth_manager.cpp:658-684 | in place, the update of the model |
| `ScoManager.AudioHfpManager.SetActiveHfpDevice` | frameworks/native/bluetoothclient/audio_bluetooth_manager.cpp:463-485 | in place, the switch of the model |
| `ScoManager.AudioHfpManager.UpdateActiveHfpDevice` | frameworks/native/bluetoothclient/audio_bluetooth_manager.cpp:487-497 | in place, the takeover of a device the remote side set up |
| `ScoManager.AudioHfpManager.ClearCurrentActiveHfpDevice` | frameworks/native/bluetoothclient/audio_bluetooth_manager.cpp:532-542 | in place, the clearing of the model |
| `ScoManager.AudioHfpManager.SetVirtualCallOf` | frameworks/native/bluetoothclient/audio_bluetooth_manager.cpp:602-617 | in place: agreeing erases an entry, declining stores one, and the link is updated |
| `ScoManager.AudioHfpManager.OnScoStateChanged` | frameworks/native/bluetoothclient/audio_bluetooth_manager.cpp:728-743 | a link set up by the remote side makes its device active; other reports go to the link manager |
| `PcmBuffer.SliceLayout` | services/audio_engine/buffer/hpae_pcm_buffer.cpp:60-84 | a slice is a whole number of 64-byte units and of floats and is longer than its data by one to sixteen floats |
| `PcmBuffer.SlicesDisjoint` | services/audio_engine/buffer/hpae_pcm_buffer.cpp:60-84 | slices of different frames do not overlap |
| `PcmBuffer.HpaePcmBuffer.constructor` | services/audio_engine/buffer/hpae_pcm_buffer.cpp:60-84 | slices begin at multiples of the padded size inside the flat buffer; with at least one frame the ring stands for the fresh window |
| `PcmBuffer.HpaePcmBuffer.Reset` | services/audio_engine/buffer/hpae_pcm_buffer.cpp:144-152 | from any state a reset stands for the fresh, silent window |
| `PcmBuffer.HpaePcmBuffer.PushFrameData` | services/audio_engine/buffer/hpae_pcm_buffer.cpp:198-217 | a push is the window's push: refused exactly when full or too long; a refused copy silences the oldest frame |
| `PcmBuffer.HpaePcmBuffer.PushFrameBuffer` | services/audio_engine/buffer/hpae_pcm_buffer.cpp:219-238 | the same for a single-frame buffer, which is copied padding and all |
| `PcmBuffer.HpaePcmBuffer.StoreFrameData` | services/audio_engine/buffer/hpae_pcm_buffer.cpp:240-255 | a store slides both ends of the window |
| `PcmBuffer.HpaePcmBuffer.GetFrameData` | services/audio_engine/buffer/hpae_pcm_buffer.cpp:154-174 | a read hands out the frame at the read end; into a vector that is too short it zeroes the vector and keeps the frame |
| `PcmBuffer.HpaePcmBuffer.GetFrameBuffer` | services/audio_engine/buffer/hpae_pcm_buffer.cpp:176-196 | the same into a single-frame buffer of any size: it succeeds exactly if the frame fits four times the destination, and writes past the destination exactly if the frame does not fit it and it is not empty |
| `PcmBuffer.GetFrameStaysInside` | services/audio_engine/buffer/hpae_pcm_buffer.cpp:187-190 | for all sizes: the size check passes if and only if the frame fits four times the destination, and the call stays inside the destination if and only if the frame fits it, or there is none |
| `PcmBuffer.GetFrameLeavesBuffer` | services/audio_engine/buffer/hpae_pcm_buffer.cpp:187-190 | both ways to fail, for a destination of 16 floats: a frame of 17 samples is copied past the end, one of 65 is refused and 64 floats are cleared |
| `PcmBuffer.HpaePcmBuffer.RewindBuffer` | services/audio_engine/buffer/hpae_pcm_buffer.cpp:257-266 | a rewind moves the read end back by the smaller of the request and the free slots, modulo the ring |
| `PcmWindow.Do` | services/audio_engine/buffer/hpae_pcm_buffer.cpp:154-266 | every operation keeps the window: at most `frames` frames wait, and the read end never passes the frames still stored |
| `PcmWindow.ReadsInOrder` | services/audio_engine/buffer/hpae_pcm_buffer.cpp:154-174 | successive reads hand out the history in order |
| `PcmWindow.RewindReplays` | services/audio_engine/buffer/hpae_pcm_buffer.cpp:257-266 | reading and rewinding by the same count is undone, and the same frames come out again |
| `PcmWindow.StoredFramesReplay` | services/audio_engine/buffer/hpae_pcm_buffer.cpp:240-266 | frames stored as history while the free slots last come out again after a rewind by their number, in order, behind what was waiting |
| `PcmWindow.RewindReplaysHistory` | services/audio_engine/buffer/hpae_pcm_buffer.cpp:257-266 | after any run a rewind by any count goes back by it or by the free slots, whichever is smaller, and reads out exactly that many frames before the read end |
| `PcmWindow.RewindGoesBack` | services/audio_engine/buffer/hpae_pcm_buffer.cpp:257-266 | a rewind moves the read end back by no more than was asked, and by less only if every slot waits to be read then |
| `PcmWindow.RefusedCopy` | services/audio_engine/buffer/hpae_pcm_buffer.cpp:198-255 | a push or store of too much data leaves everything as it was if and only if the buffer was full (for a push) or the oldest frame was silent |
| `PcmWindow.ShortDataKeepsOldTail` | services/audio_engine/buffer/hpae_pcm_buffer.cpp:198-255 | a push or store of data shorter than a frame makes a frame that ends with the end of the oldest frame |
| `PcmWindow.RefusedPushSilencesStoredFrame` | services/audio_engine/buffer/hpae_pcm_buffer.cpp:198-266 | a run from the fresh buffer in which a refused push silences a stored frame and the rewind then reads silence |
| `PcmWindow.PushGetIsFifo` | services/audio_engine/buffer/hpae_pcm_buffer.cpp:154-238 | over any run of pushes and reads, refused ones included, what waited followed by what was pushed is what came out followed by what waits |
| `PcmWindow.AppendHeld` | services/audio_engine/buffer/hpae_pcm_buffer.cpp:198-217 | writing the slot at the write position keeps the latest frames at their numbers modulo the ring |
| `PcmConcurrent.StepKeeps` | services/audio_engine/buffer/hpae_pcm_buffer.cpp:154-238 | one pusher and one getter, every interleaving of single accesses and sample copies: the invariant of the ring is kept |
| `PcmConcurrent.SlotsNeverShared` | services/audio_engine/buffer/hpae_pcm_buffer.cpp:154-238 | the getter never copies from the slot the pusher fills, and the occupancy stays between zero and the number of frames |
| `PcmConcurrent.InterleavingIsSequential` | services/audio_engine/buffer/hpae_pcm_buffer.cpp:154-238 | every interleaving amounts to the sequential run of the operations in the order they took effect, in what is stored and in what was handed out |
| `PcmConcurrent.FramesArriveInPushOrder` | services/audio_engine/buffer/hpae_pcm_buffer.cpp:154-238 | in every interleaving, refused pushes included, what the getter received followed by what still waits is what was pushed, in push order |
| `PcmConcurrent.PushesAccounted` | services/audio_engine/buffer/hpae_pcm_buffer.cpp:198-217 | in every interleaving the pushes begun are, in order and each once, those that took effect (stored, or refused because the buffer was full or the data too long) and then the one under way |
| `PcmConcurrent.GetsAccounted` | services/audio_engine/buffer/hpae_pcm_buffer.cpp:154-174 | the gets begun are those that took effect (a frame handed out, or refused because the buffer was empty), those refused for a destination that is too short, and the one under way |
| `PcmConcurrent.PushEnds` | services/audio_engine/buffer/hpae_pcm_buffer.cpp:198-217 | a push is over after at most `samples + 5` steps of its own, whatever the getter does |
| `PcmConcurrent.GetEnds` | services/audio_engine/buffer/hpae_pcm_buffer.cpp:154-174 | a get is over after at most `samples + 5` steps of its own, whatever the pusher does |
| `ScheduleGuard.StepKeeps` | frameworks/native/audioschedule/audio_schedule.cpp:213-281 | every step of creators, holders and destructors keeps the invariant |
| `ScheduleGuard.AtMostOneGuard` | frameworks/native/audioschedule/audio_schedule.cpp:236-281 | in every interleaving a thread has at most one guard that is not destroyed |
| `ScheduleGuard.MapMatchesGuards` | frameworks/native/audioschedule/audio_schedule.cpp:236-281 | when the mutex is free the map has a key exactly while such a guard exists, and it is that guard |
| `ScheduleGuard.ReportsAlternate` | frameworks/native/audioschedule/audio_schedule.cpp:213-281 | per thread the system hears reports and unreports strictly alternating, a report first, each unreport naming the bundle of its report; when the mutex is free a report is open exactly while the map has the key |
| `ScheduleGuard.HeldIsBoosted` | frameworks/native/audioschedule/audio_schedule.cpp:213-234 | whoever holds a reference has its thread reported, under the name of the bundle that created the guard |
| `ScheduleGuard.CreateReturns` | frameworks/native/audioschedule/audio_schedule.cpp:236-271 | a guard handed out is alive, reported and of the thread asked for; null is returned only after a timeout, so the error branch after the wait is dead |
| `ScheduleGuard.CreateDecides` | frameworks/native/audioschedule/audio_schedule.cpp:236-271 | with the mutex in hand a live guard is handed out, also to a late creator; without one a new one is made; while one is dying a creator waits, or gives up if it is late, and only then |
| `ScheduleGuard.NoLostWakeup` | frameworks/native/audioschedule/audio_schedule.cpp:241-253 | while a creator waits unnotified and the mutex is free, the dying guard is still in the map and its destructor has yet to run |
| `ScheduleGuard.DestructorNotifies` | frameworks/native/audioschedule/audio_schedule.cpp:273-281 | that destructor unreports once, erases the key and notifies every waiter |
| `ScheduleGuard.WaiterCreatesAfresh` | frameworks/native/audioschedule/audio_schedule.cpp:241-267 | a waiter that runs then gets a new guard, reported under its own bundle |
| `ScheduleGuardClass.SharedAudioScheduleGuards.CreateSection` | frameworks/native/audioschedule/audio_schedule.cpp:236-271 | the section of Create that holds the mutex, in place, is a run of the protocol, and what it returns is as promised |
| `ScheduleGuardClass.SharedAudioScheduleGuards.Destructor` | frameworks/native/audioschedule/audio_schedule.cpp:273-281 | the destructor, in place, is a run of the protocol: one unreport, the key erased, every waiter notified, nothing unreported by the moved-from member |
| `ScheduleGuardClass.SharedAudioScheduleGuards.DestroyGuard` | frameworks/native/audioschedule/audio_schedule.cpp:229-234 | a guard unreports exactly when it still stands for a report |
| `DfxShape.BfsIsEnqueueOrder` | services/audio_engine/dfx/hpae_dfx_tree.cpp:25-63 | subtrees enter the queue in the order in which they leave it |
| `DfxShape.ParentOfFirst` | services/audio_engine/dfx/hpae_dfx_tree.cpp:25-63 | even with duplicate ids, the first subtree with a matching child has the first match of the walk as that child |
| `DfxShape.ParentExists` | services/audio_engine/dfx/hpae_dfx_tree.cpp:45-63 | there is such a subtree whenever something other than the root was found |
| `DfxShape.BfsIsLevels` | services/audio_engine/dfx/hpae_dfx_tree.cpp:25-43 | breadth-first order is the concatenation of the levels |
| `DfxShape.LevelsAreDepths` | services/audio_engine/dfx/hpae_dfx_tree.cpp:117-139 | level d lists exactly the subtrees of depth d, left to right |
| `DfxShape.LevelsAreInhabited` | services/audio_engine/dfx/hpae_dfx_tree.cpp:117-139 | no level is empty, so there are as many levels as depths |
| `DfxShape.BfsVisitsOnce` | services/audio_engine/dfx/hpae_dfx_tree.cpp:25-43 | the walk meets every node exactly once |
| `DfxEdits.RemovalIsExact` | services/audio_engine/dfx/hpae_dfx_tree.cpp:85-115 | removing what a search found removes that subtree's nodes and no others |
| `DfxEdits.PruneKeepsOthers` | services/audio_engine/dfx/hpae_dfx_tree.cpp:106-113 | every subtree that stays keeps its label and its place |
| `DfxEdits.GraftKeepsOthers` | services/audio_engine/dfx/hpae_dfx_tree.cpp:65-83 | an inserted leaf becomes the last child of its parent, whose label and children stay, and every other subtree stays where it is |
| `DfxEdits.RelabelKeepsOthers` | services/audio_engine/dfx/hpae_dfx_tree.cpp:181-193 | relabelling changes that node's label and neither its children nor any other subtree |
| `DfxEdits.PruneKeepsIds` | services/audio_engine/dfx/hpae_dfx_tree.cpp:85-115 | removing keeps the ids of siblings distinct |
| `DfxEdits.GraftKeepsIds` | services/audio_engine/dfx/hpae_dfx_tree.cpp:65-83 | so does inserting |
| `DfxTree.HpaeDfxTree.FindDfxNode` | services/audio_engine/dfx/hpae_dfx_tree.cpp:25-43 | returns the first match in breadth-first order, or null if there is none |
| `DfxTree.HpaeDfxTree.FindDfxParent` | services/audio_engine/dfx/hpae_dfx_tree.cpp:45-63 | returns the first node of the walk with a child of the target's id, or null |
| `DfxTree.HpaeDfxTree.Insert` | services/audio_engine/dfx/hpae_dfx_tree.cpp:65-83 | adds a leaf below the first match unless a child there has its id; fails exactly when there is no match; keeps sibling ids distinct |
| `DfxTree.HpaeDfxTree.Remove` | services/audio_engine/dfx/hpae_dfx_tree.cpp:85-115 | takes out exactly the subtree of the first match and fails exactly when there is none, so the failures after the search are dead; keeps sibling ids distinct |
| `DfxTree.HpaeDfxTree.LevelOrderTraversal` | services/audio_engine/dfx/hpae_dfx_tree.cpp:117-139 | returns the labels of the levels |
| `DfxTree.HpaeDfxTree.UpdateNodeInfo` | services/audio_engine/dfx/hpae_dfx_tree.cpp:181-193 | relabels the first match and nothing else |
| `FormatConvert.RoundTrip16` | services/audio_engine/utils/hpae_format_convert.cpp:48-53 | 16-bit samples survive the way to float and back, every intermediate exact |
| `FormatConvert.RoundTrip24` | services/audio_engine/utils/hpae_format_convert.cpp:29-63 | so do the three bytes of 24-bit samples |
| `FormatConvert.WriteRead24` | services/audio_engine/utils/hpae_format_convert.cpp:29-39 | writing keeps the low 24 bits, whatever the sign extension above them |
| `FormatConvert.RoundTripU8` | services/audio_engine/utils/hpae_format_convert.cpp:41-46 | 8-bit samples: 0 becomes 1, 1 to 128 stay, larger ones lose one |
| `FormatConvert.EncodeU8Range` | services/audio_engine/utils/hpae_format_convert.cpp:83-89 | encoding any sample to 8 bits gives 1 to 255, off by at most little more than a step in [-1, 1]; louder samples give 254 and 1 |
| `FormatConvert.CapRange` | services/audio_engine/utils/hpae_format_convert.cpp:72-81 | capping leaves [-1, 1] alone and takes louder samples to between 2^-20 and 2^-19 from full scale, with their sign; it leads to 1.0 only from exactly 1.0 |
| `FormatConvert.Encode16Range` | services/audio_engine/utils/hpae_format_convert.cpp:91-98 | encoding to 16 bits fits exactly when the sample is not 1.0, is off by less than one step in [-1, 1], and gives 32767 and -32767 for louder samples |
| `FormatConvert.Encode32Range` | services/audio_engine/utils/hpae_format_convert.cpp:110-117 | the same for the 32-bit encoding, whose louder samples stay 2048 to 4096 from the end of the range |
| `FormatConvert.Encode24Range` | services/audio_engine/utils/hpae_format_convert.cpp:100-108 | where it fits, the 24-bit encoding read back is the 32-bit one without its low byte |
| `FormatConvert.RoundTrip32` | services/audio_engine/utils/hpae_format_convert.cpp:65-117 | 32-bit samples come back rounded to 24 significant bits, within 64, unchanged exactly when they are floats, and out of range above 2^31 - 64 |
| `FloatRounding.NearestExists` | services/audio_engine/utils/hpae_format_convert.cpp:48-53 | round to nearest, as the other statements assume it of the float unit, exists |
| `FormatConvert.ConvertFromU8ToFloat` | services/audio_engine/utils/hpae_format_convert.cpp:41-46 | the loop decodes each of n samples and touches nothing else |
| `FormatConvert.ConvertFrom16BitToFloat` | services/audio_engine/utils/hpae_format_convert.cpp:48-53 | the loop decodes each of n samples and touches nothing else |
| `FormatConvert.ConvertFrom24BitToFloat` | services/audio_engine/utils/hpae_format_convert.cpp:55-63 | the loop decodes each of n byte triples and touches nothing else |
| `FormatConvert.ConvertFrom32BitToFloat` | services/audio_engine/utils/hpae_format_convert.cpp:65-70 | the loop decodes each of n samples and touches nothing else |
| `FormatConvert.ConvertFromFloatToU8` | services/audio_engine/utils/hpae_format_convert.cpp:83-89 | the loop encodes each of n samples and touches nothing else |
| `FormatConvert.ConvertFromFloatTo16Bit` | services/audio_engine/utils/hpae_format_convert.cpp:91-98 | the loop encodes each of n samples and touches nothing else; what a sample of exactly 1.0 stores is left open |
| `FormatConvert.ConvertFromFloatTo24Bit` | services/audio_engine/utils/hpae_format_convert.cpp:100-108 | the loop encodes each of n samples to byte triples and touches nothing else; what a sample of exactly 1.0 stores is left open |
| `FormatConvert.ConvertFromFloatTo32Bit` | services/audio_engine/utils/hpae_format_convert.cpp:110-117 | the loop encodes each of n samples and touches nothing else; what a sample of exactly 1.0 stores is left open |
| `DeviceModel.HandleKeeps` | frameworks/native/bluetoothclient/bluetooth_device_manager.cpp:146-482 | on both profiles and whatever the environment answers, every action keeps: lists free of duplicate addresses, connecting devices not connected, privacy, common and wear entries connected, negative entries connected or virtual |
| `DeviceModel.RemovedHas` | frameworks/native/bluetoothclient/bluetooth_device_manager.cpp:427-438 | erasing the first entry erases the device, given distinct addresses |
| `DeviceTheorems.DisconnectedIsGone` | frameworks/native/bluetoothclient/bluetooth_device_manager.cpp:247-264 | after any events a disconnect leaves the device in neither map and in none of the lists, but for a virtual device that was not connected |
| `DeviceModel.SelectMeans` | frameworks/native/bluetoothclient/bluetooth_device_manager.cpp:942-963 | a watch selected for calls is replaced by the last privacy device not known unworn, if there is one, and the scan enters that device and no other in the wear map; otherwise the device itself is selected and the map stays |
| `DeviceFiling.ConnectFiles` | frameworks/native/bluetoothclient/bluetooth_device_manager.cpp:211-245 | a device that connects is entered in the map and filed into exactly the list of its category: common for soundboxes and cars, negative for watches and what is taken for unworn, privacy for the rest; it is told once, under the category it passes for; without a hands-free profile it is filed nowhere |
| `DeviceFiling.CategoryUpdateFiles` | frameworks/native/bluetoothclient/bluetooth_device_manager.cpp:466-482 | an updated device is filed again by its new category but not taken out of the privacy and common lists; it is in two lists afterwards if and only if it was in one of those and belongs elsewhere |
| `DeviceFiling.CarKitStaysPrivate` | frameworks/native/bluetoothclient/bluetooth_device_manager.cpp:466-482 | a run in which a device updated to a car kit stays a privacy device as well |
| `DeviceFiling.WearReportFiles` | frameworks/native/bluetoothclient/bluetooth_device_manager.cpp:266-309 | a wear report of a connected device files it as worn or unworn, out of the other list, and is remembered; any other is ignored |
| `DeviceFiling.DetectionFiles` | frameworks/native/bluetoothclient/bluetooth_device_manager.cpp:341-385 | switching wear detection files a connected device by the wear map, or as worn when it goes off |
| `DeviceFiling.WaitingFiles` | frameworks/native/bluetoothclient/bluetooth_device_manager.cpp:194-200 | connecting devices are listed as such unless connected; virtual ones are virtual and negative until removed |
| `DeviceFiling.OthersStay` | frameworks/native/bluetoothclient/bluetooth_device_manager.cpp:146-192 | no action moves any other device in any list or in the map |
| `DeviceFiling.CategoryTold` | frameworks/native/bluetoothclient/bluetooth_device_manager.cpp:834-940 | which category every action tells of which device, as an equivalence over all actions |
| `DeviceFiling.EnableTold` | frameworks/native/bluetoothclient/bluetooth_device_manager.cpp:311-339 | enabling and disabling is told of connected devices only and changes no list |
| `DeviceFiling.LinkDroppedWhen` | frameworks/native/bluetoothclient/bluetooth_device_manager.cpp:1195-1221 | the call link of a device is dropped if and only if, on the hands-free side, the end of a virtual call is asked for, or the connected device is disabled, reported unworn or filed as unworn again |
| `DeviceTheorems.WearMapIsLastReport` | frameworks/native/bluetoothclient/bluetooth_device_manager.cpp:257-299 | over whole runs the wear map holds a device's last wear report since it connected, if and only if no watch selection guessed it; guessed means worn without a report |
| `DeviceTheorems.WearToggleRestores` | frameworks/native/bluetoothclient/bluetooth_device_manager.cpp:341-385 | after any run, switching wear detection off and on files a device as worn if and only if its last report said so, or there was none and a watch selection guessed it |
| `DeviceTheorems.GuessedAsWorn` | frameworks/native/bluetoothclient/bluetooth_device_manager.cpp:942-963 | a run in which a headphone that never reported is filed as worn |
| `DeviceTheorems.NoticesAlternate` | frameworks/native/bluetoothclient/bluetooth_device_manager.cpp:440-465 | over every run, service crashes included, the connections and disconnections told about a device strictly alternate and agree with the map |
| `DeviceTheorems.CrashTellsEveryone` | frameworks/native/bluetoothclient/audio_bluetooth_manager.cpp:127-147 | a crash of the service tells that each connected device is gone, once, and no connection state of any other |
| `DeviceTheorems.FarewellEmpties` | frameworks/native/bluetoothclient/audio_bluetooth_manager.cpp:512-530 | when a crash comes to clearing the lists, only connecting devices are left in them |
| `DeviceManager.BluetoothDeviceManager.AddDeviceInConfigVector` | frameworks/native/bluetoothclient/bluetooth_device_manager.cpp:414-425 | appends unless the address is there |
| `DeviceManager.BluetoothDeviceManager.RemoveDeviceInConfigVector` | frameworks/native/bluetoothclient/bluetooth_device_manager.cpp:427-438 | erases the first entry with the address |
| `DeviceManager.BluetoothDeviceManager.HandleConnectDeviceInner` | frameworks/native/bluetoothclient/bluetooth_device_manager.cpp:775-813 | files a device by category; without a hands-free profile it is filed nowhere |
| `DeviceManager.BluetoothDeviceManager.HandleConnectDevice` | frameworks/native/bluetoothclient/bluetooth_device_manager.cpp:202-209 | a connected device is ignored; another is filed, entered in the map and told |
| `DeviceManager.BluetoothDeviceManager.HandleDisconnectDevice` | frameworks/native/bluetoothclient/bluetooth_device_manager.cpp:247-264 | in place, the disconnect of the model |
| `DeviceManager.BluetoothDeviceManager.HandleWearEnable` | frameworks/native/bluetoothclient/bluetooth_device_manager.cpp:341-366 | in place: worn devices to the privacy list, others to the negative one |
| `DeviceManager.BluetoothDeviceManager.HandleUserSelection` | frameworks/native/bluetoothclient/bluetooth_device_manager.cpp:942-963 | in place, the scan from the back whose lookups insert |
| `DeviceManager.BluetoothDeviceManager.HandleUpdateDeviceCategory` | frameworks/native/bluetoothclient/bluetooth_device_manager.cpp:994-1006 | in place, the re-filing of a connected device |
| `DeviceManager.BluetoothDeviceManager.ClearAllBluetoothDevice` | frameworks/native/bluetoothclient/bluetooth_device_manager.cpp:1120-1135 | empties every list and map and tells nobody |
| `DeviceManager.BluetoothDeviceManager.DisconnectBluetoothSink` | frameworks/native/bluetoothclient/audio_bluetooth_manager.cpp:512-530 | the loops over the connected and the virtual devices and the clearing, in place, are the crash of the model |
| `DeviceManager.BluetoothDeviceManager.SetStack` | frameworks/native/bluetoothclient/bluetooth_device_manager.cpp:707-756 | the dispatch: the invariant before and after every action, and the new state and notices are the model's |

## Left out

- PackedWords: tags are unbounded in the state machine; the 64-bit words agree with it while a queue has seen fewer than 2^32 pops.
- NoLockQueueClass.HpaeNoLockQueue.HandleRequests: one consumer; several consumers or a request that handles requests again are not modelled, the scratch vector is not synchronised for them.
- NoLockQueueClass.HpaeNoLockQueue.constructor: the calls on a queue made with a capacity of zero, whose heads were never set.
- NoLockQueueClass.HpaeNoLockQueue.PushRequestNode: one body serves both list heads in the source; here the pending head and the free head have a method each.
- Atomic accesses are sequentially consistent; weaker memory orders, the queue monitor's report of a dropped request and logging are not modelled.
- The hands-free library, its answers and the meaning of its result codes are arbitrary; locks make each entry point of the link manager and the policy one step.
- The link timer only logs when it runs out, so no link state is left by itself; the timer's duration is not modelled.
- ScoManager.BluetoothScoManager.constructor: the stack reports the link up or down at start; a transient state at start is not modelled.
- A default-constructed device is taken to have an empty address; how a device is found to be valid is not part of this model.
- HfpPolicy.PolicyRunIsDisciplined: connecting virtual devices, the reconnect check at start and the callbacks of the connection state are not modelled.
- PcmBuffer.HpaePcmBuffer.constructor: the calls on a buffer made with zero frames, which divide by the number of frames; sizes are unbounded, so overflow of `size_t`, also in the argument of a rewind, is not modelled.
- PcmBuffer.HpaePcmBuffer.PushFrameData: securec.h is not part of this model; the bounded copy follows section K.3.7.1.1 of C11, which zeroes the destination when the source does not fit. The null data pointer of an empty vector is treated as an empty copy.
- PcmBuffer.HpaePcmBuffer.GetFrameBuffer: writing past the destination is counted, not modelled in its effect on other memory; a buffer read into itself is left out.
- Assignments from vectors, arithmetic on buffers, moving a buffer, setting the positions from outside and the state flags of the PCM buffer are not modelled; the assignment from a vector of vectors advances its index twice per frame.
- PcmConcurrent.StepKeeps: stores and rewinds do not run at the same time as pushes and reads.
- ScheduleGuardClass.SharedAudioScheduleGuards.CreateSection: a section runs as one method, because the mutex keeps others out of it; interleavings inside a section are those of ScheduleGuard.
- Which thread runs a destructor is not modelled, so the model allows more interleavings than the code; the time-out of five seconds is an action that may happen at any time.
- The server's own set of reported threads, the process priorities and the QoS calls of the scheduling file are not modelled.
- Freed memory of the tree is not modelled: a removed subtree is unreachable. Printing the tree is left out.
- DfxTree.HpaeDfxTree.UpdateNodeInfo: it may give two siblings one id; that distinctness is kept is only stated of insertion and removal.
- FormatConvert.ConvertFromFloatTo16Bit: the cast of a number that does not fit is modelled as storing any value; NaN, infinities and numbers beyond the largest float are not represented; the compiler's fusing of a multiplication with an addition is not modelled.
- The dispatch on the sample format through untyped pointers and the copy of float samples are left out.
- Device-list handlers are atomic, though the code locks each list operation.
- DeviceModel.HandleKeeps: waiting for the end of a virtual call and the connection-state updates of the hands-free manager are not modelled; dropping a link is a notice. The observer and the profile listeners are taken to be registered.
- DeviceManager.BluetoothDeviceManager.DisconnectBluetoothSink: the order in which a crash goes through the map of connected devices is arbitrary.
- The A2DP sink side, offload forwarding, the NAPI, Cangjie and OHAudio layers, SIMD helpers, the dumper and the high-resolution timer hold no state worth a model here.
