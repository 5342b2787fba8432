# Verified models of the penrose device tree

Dafny models of the parts of this Android device tree that hold real state: the fail-safe update of
the GUID partition table, the input filter that merges touches with two shoulder keys, the Bluetooth
audio session with its port and output stream, the performance locks, and the smaller cores beside
them. Each model follows the code, quirks included; the lemmas and contracts state what the code is
relied on for, over every input, every run and every fault the model admits.

`dafny verify dfyconfig.toml` checks everything.

## How it is built

Code that changes things in place is modelled by classes, arrays and loops, and each method is proved
against a function of the state before it. What the code is for is then proved about those functions.

* **GPT update.** `Bytes`, `CStrings`, `GptHeader` and `GptEntries` give the bytes their meaning
  (sections 5.3.2 and 5.3.3 of the UEFI Specification). `Twins` is the exchange of main and backup
  entries over any list of names, `GptEntryArray` the same in place on a byte array with any stride,
  and `BootChain` says partition by partition what that moves.
  `FailSafe` is the three-stage protocol over two abstract copies, with calls that may be cut at any
  write and leave the region being written holding anything. `GptBlocks` shows that GPT blocks obey
  the protocol's laws whatever function crc32 is; `GptDevice` is a device that may fail or tear at any
  access; `GptUpdate` and `GptCommit` are the C functions on it; `GptTheorems` carries the results over
  to bytes on the device, `GptRuns` calls the update again and again on one, and `GptExample` has a
  smallest device with a disk that serves and a disk that is lost.
* **Touch merger.** `TouchTable` relates ranks and slots, `TouchMerger` takes one input of a well-formed
  source to one well-formed event, `TouchRuns` says over whole runs when the merged stream is well
  formed, `TouchFilter` is the filter's array of mutable positions with its loops.
* **Bluetooth audio.** `SessionTypes` has the cookies, `AudioSession` the session and its copy loops,
  `AudioProvider` the calls that drive a session. `PortMachine` is the port's state machine as atomic
  steps, `DevicePort` the requests that wait while other steps happen, `StreamPositions` the frame
  arithmetic, `OutStream` the stream calls. `AudioParams` is the parser with its printer and
  `SingleBit` the codec validators.
* **Power.** `LockLedger` says what acquiring and releasing locks means, `LockList` is the heap-linked
  list and the two actions on it, `HintCounts` the reference-counted hints.
* **Key mappings.** `KeyMapping` is the write-back cache over its table, `KeyCache` the list of mutable
  mapping objects and the database helper.

`Collections` holds the few notions on sequences, sets and maps that several of these share.

## What the code does not meet, and when it does

* A key mapping saved for a rotation that is not known yet starts enabled, whatever the other rotation
  is, so the two rotations of a package can come to disagree. They agree after every run exactly when
  no package of the initial table has a single, disabled rotation (`KeyMapping.FlagsAgreeIff`,
  `KeyMapping.SaveAgreesIff`, `KeyMapping.FlagsCanPart`).
* `gpt_disk_update_crc` takes both header CRCs over the primary's header size. The backup header comes
  out good under every checksum exactly when its own size field is the same; a header of another size
  goes bad under a checksum that tells the two lengths apart (`GptCommit.ResealedGoodIff`).
* From one complete copy `prepare_partitions` keeps a complete copy at every write boundary of every run
  exactly when a primary header with a bad signature still carries its array's CRC
  (`FailSafe.CrashSafetyIff`). Over a primary header that does not, the BACKUP stage gives up the only
  complete copy (`FailSafe.ForeignPrimaryLosesAll`; `GptExample.ForeignDiskIsRuined` is such a disk). Calls
  that tear no header unseen by its CRC check never lead there (`FailSafe.CleanRunCrashSafe`).
* The copy loops of an audio session go through a null queue exactly when they find the session ready and
  without a queue. Only a session of an offload type can be that, and every started one is
  (`AudioSession.BluetoothAudioSession.OutWritePcmData`, outcome `NoQueue`;
  `AudioProvider.BluetoothAudioProvider.StartSession`).
* The fallback latency is within the data interval and 200 ms for every interval exactly when the sample
  rate is not below the one the stream was opened with (`StreamPositions.FallbackBoundIff`).
* A touch CANCEL frees the slot of a held key too, and the key's release, however much later, reaches the
  receiver as the UP of a pointer it does not have (`TouchRuns.CancelOrphansKey`). With CANCELs at any
  time the merged stream is accepted exactly when no key that a CANCEL orphaned is released
  (`TouchRuns.MergedStreamAcceptedIff`).
* A performance lock is lost when there is neither memory for its node nor a release function. The books
  of a run balance exactly when the library can release or every lock found its node
  (`LockLedger.LostWithoutRelease`), and of all runs exactly when it can release
  (`LockLedger.RunBalanced`).

## Assumptions

* crc32 is any deterministic function. A call may stop at any write and leave anything in the region it
  was writing. Each theorem about runs says what it takes for another call to follow: that no header was
  torn so that its CRC check does not show it, or only that every header with a good CRC has the device's
  layout and a primary header with a bad signature carries its array's CRC.
* Every failing access is counted as a fault; a failing allocation, `open` or `stat` is not modelled apart
  from them.
* The four regions of the device are disjoint, the entry size is at least 128, count times size fits 32
  bits, and header blocks are at least 92 bytes. A header whose size field exceeds the block counts as
  corrupted.
* The touchscreen follows the motion-event rules without hover events, and a CANCEL may come at any time.
  Keys alternate DOWN and UP with a mapping available.
* Every handler and every guarded assignment to the port's state is one atomic step.
* Observers do not register or unregister from inside a notification.

## Model

| member | source | states |
|---|---|---|
| `Twins.SwapChainInvolution` | gpt-utils/gpt-utils.cpp:236-277 | exchanging the twins of every name of an independent list twice gives the list of entries back |
| `Twins.SwapChainPermutes` | gpt-utils/gpt-utils.cpp:236-277 | no entry is lost or duplicated, for any list of names |
| `Twins.BackupBecomesMain` | gpt-utils/gpt-utils.cpp:236-277 | every name with twins afterwards finds first the former second match, at the first one's place |
| `Twins.TwinSurvives` | gpt-utils/gpt-utils.cpp:246-272 | earlier exchanges of the loop neither move nor destroy the twins of a later name |
| `Twins.HasBackupMeans` | gpt-utils/gpt-utils.cpp:244-276 | something is exchanged exactly when some processed name has twins |
| `GptEntries.SwapListIndependent` | gpt-utils/gpt-utils.h:85 | the shipped swap list is independent on both kinds of device: no entry answers to two processed names |
| `GptEntryArray.BootChainSwapInvolution` | gpt-utils/gpt-utils.cpp:236-277 | the boot-chain swap undoes itself byte for byte on every array of any stride |
| `GptEntryArray.BootChainSwapEffect` | gpt-utils/gpt-utils.cpp:236-277 | the 128-byte prefixes are permuted and every processed name with a backup finds the former backup first |
| `GptEntryArray.NameTestDecides` | gpt-utils/gpt-utils.cpp:193-219 | the strncmp/strcmp test accepts exactly the name and the name followed by "bak" |
| `GptEntryArray.GptPentrySeek` | gpt-utils/gpt-utils.cpp:193-219 | the seek loop finds the first entry at or after its start that answers to the name, or none |
| `GptEntryArray.SwapTwinInPlace` | gpt-utils/gpt-utils.cpp:246-272 | one turn of the loop exchanges 128 bytes of the first two matches and leaves all other bytes, slack included |
| `GptEntryArray.GptBootChainSwap` | gpt-utils/gpt-utils.cpp:236-277 | the array ends as all the exchanges in turn make it; 0 exactly when a pair was exchanged |
| `BootChain.LeftToOthers` | gpt-utils/gpt-utils.cpp:248-255 | on UFS every entry whose name starts with xbl stays where it is, and on every device every entry whose name starts with multiimgoem or multiimgqti |
| `BootChain.BackupTakesOver` | gpt-utils/gpt-utils.cpp:236-277 | for every other list name, xbl and xbl_config only off UFS, the first two entries that carry the name or its bak form change places |
| `BootChain.OthersStay` | gpt-utils/gpt-utils.cpp:236-277 | an entry that carries no list name and no bak form of one stays where it is |
| `BootChain.ExchangesIff` | gpt-utils/gpt-utils.cpp:244-276 | something is exchanged exactly when such a name is carried twice |
| `GptEntries.NameIsSpelled` | gpt-utils/gpt-utils.cpp:193-219 | the name an entry is sought by is what the low bytes of its UTF-16 name spell up to a zero or 36 characters |
| `GptHeader.SealFixpoint` | gpt-utils/gpt-utils.cpp:450-458 | recomputing the header CRC changes nothing exactly on headers whose CRC is good |
| `GptHeader.MarkedState` | gpt-utils/gpt-utils.cpp:482-540 | a header marked good or bad has that state afterwards, never a bad CRC, and keeps every byte past the CRC field |
| `GptHeader.MarkRoundTrip` | gpt-utils/gpt-utils.cpp:482-540 | corrupting a good header and fixing it again restores its bytes |
| `GptHeader.RepointedState` | gpt-utils/gpt-utils.cpp:378-384 | the header written for a new array keeps its signature's state and is bound to that array's CRC |
| `GptHeader.RepointFixpoint` | gpt-utils/gpt-utils.cpp:378-384 | rewriting a complete copy for the array it describes changes nothing |
| `GptHeader.SecondaryRoundTrip` | gpt-utils/gpt-utils.cpp:789-889 | the four rewrites the secondary header goes through in an update come down to one |
| `FailSafe.CrashSafety` | gpt-utils/gpt-utils.cpp:719-899 | over any calls with any stages, each stopped or torn at any write, every disk between two calls being one that may be rerun: one copy is complete at every write boundary |
| `FailSafe.CleanRunCrashSafe` | gpt-utils/gpt-utils.cpp:719-899 | the same with nothing assumed of the disks between: no call but the last tears a header unseen by its CRC check, and the last may leave anything in the region it was writing |
| `FailSafe.CrashSafetyIff` | gpt-utils/gpt-utils.cpp:719-899 | from one complete copy every run keeps one at every write boundary exactly when a primary header with a bad signature carries its array's CRC |
| `FailSafe.ForeignPrimaryLosesAll` | gpt-utils/gpt-utils.cpp:833-869 | over a bad signature with a foreign array CRC one BACKUP call leaves no complete copy |
| `FailSafe.StageInference` | gpt-utils/gpt-utils.cpp:743-786 | the stage the two header states call for runs and moves on, the one before it is a no-op returning 0, any other is refused untouched |
| `FailSafe.RefusedForGood` | gpt-utils/gpt-utils.cpp:752-765 | with a bad header CRC or two bad signatures no call of any run returns 0 or changes the disk |
| `FailSafe.StageEffect` | gpt-utils/gpt-utils.cpp:788-891 | the table each uninterrupted stage leaves, boot LUN included; MAIN without backup partitions writes no table |
| `FailSafe.FaultFreeStates` | gpt-utils/gpt-utils.cpp:743-786 | over any fault-free run the header states are one of three pairs, never a bad CRC, never both bad; the primary entries are never touched |
| `FailSafe.FullCycle` | gpt-utils/gpt-utils.cpp:788-891 | three stages that return 0 leave the primary as it was and the secondary its copy; agreeing copies are restored |
| `FailSafe.UpdateRuns` | gpt-utils/gpt-utils.cpp:788-891 | without faults the three stages all return 0 exactly when the primary array has its CRC and backup partitions |
| `FailSafe.CommitSafety` | gpt-utils/gpt-utils.cpp:1481-1526 | in the order primary header, primary entries, secondary header, secondary entries a complete copy survives every cut |
| `GptBlocks.GptObeysLaws` | gpt-utils/gpt-utils.cpp:293-540 | GPT blocks obey every law the protocol needs, whatever function crc32 is |
| `GptDevice.WriteRegion` | gpt-utils/gpt-utils.cpp:145-175 | writing one region changes that region of the table and no byte outside it |
| `GptDevice.WhereRegionsLie` | gpt-utils/gpt-utils.cpp:436-445 | the primary header is the second block of the device and the secondary header the last |
| `GptDevice.BlockDevice.BlkRead` | gpt-utils/gpt-utils.cpp:145-175 | a read that is not short gives the bytes at its offset, or fails and is counted as a fault |
| `GptDevice.BlockDevice.BlkWrite` | gpt-utils/gpt-utils.cpp:145-175 | a write that is not short stores its bytes; one that fails is counted as a fault and may leave anything in its stretch and nothing else |
| `GptDevice.BlockDevice.WriteWholeRegion` | gpt-utils/gpt-utils.cpp:145-175 | what reached the disk is one write of the protocol, whole or torn |
| `GptUpdate.GptGetState` | gpt-utils/gpt-utils.cpp:414-465 | the state is judged from nine signature bytes and the CRC over header-size bytes |
| `GptUpdate.JudgeHeader` | gpt-utils/gpt-utils.cpp:450-458 | the judgement on the buffer; a bad CRC overrides the signature |
| `GptUpdate.GptSetState` | gpt-utils/gpt-utils.cpp:482-540 | one header write with the signature fixed or corrupted and resealed, which fails exactly on a fault; asking for a bad CRC is refused |
| `GptUpdate.ReadPrimaryEntries` | gpt-utils/gpt-utils.cpp:330-359 | the primary entries at the offset and size its header announces; 0 exactly without a fault and under their CRC |
| `GptUpdate.Gpt2SetBootChain` | gpt-utils/gpt-utils.cpp:293-399 | the secondary copy rewritten around the primary's entries, swapped or not; on a fault a cut of those two writes and a failure |
| `GptUpdate.RunMain` | gpt-utils/gpt-utils.cpp:789-832 | the MAIN stage: its writes in order and its result, or on a fault a cut of them and a failure |
| `GptUpdate.RunBackup` | gpt-utils/gpt-utils.cpp:833-869 | the BACKUP stage: its writes in order and its result, or on a fault a cut of them and a failure |
| `GptUpdate.RunFinalize` | gpt-utils/gpt-utils.cpp:870-889 | the FINALIZE stage: its writes in order and its result, or on a fault a cut of them and a failure |
| `GptUpdate.PreparePartitions` | gpt-utils/gpt-utils.cpp:719-899 | without a fault one call makes exactly the writes and returns the result the two header states call for; on a fault a cut of those writes and a non-zero result; a bad CRC or two bad signatures are refused with the device untouched, fault or no fault |
| `GptTheorems.PreparePartitionsCrashSafe` | gpt-utils/gpt-utils.cpp:719-899 | crash safety for GPT bytes: from two complete copies, whatever is asked for and wherever it is cut, while every disk between two calls may be rerun |
| `GptTheorems.PreparePartitionsInterrupted` | gpt-utils/gpt-utils.cpp:719-899 | crash safety for GPT bytes with nothing assumed of the disks between: calls that tear no header unseen, then one that may leave anything; every call finds the device in order |
| `GptTheorems.NextCallReady` | gpt-utils/gpt-utils.cpp:719-899 | after a call that ran through or was cut without tearing a header unseen, every header with a good CRC still has the device's layout, so the next call can follow |
| `GptRuns.CallRepeatedly` | gpt-utils/gpt-utils.cpp:719-899 | on a device failing or tearing anywhere: the calls made are a run with a complete copy at every write boundary; it ends before the last stage only on a disk that may not be rerun, never while no header was torn unseen; without a fault the table is what all the stages make of it |
| `GptTheorems.RunUpdate` | gpt-utils/gpt-utils.cpp:719-899 | a full update on the device succeeds exactly when no access fails and the primary array has its CRC and backup partitions; it restores the primary byte for byte, and the whole device when the copies agreed |
| `GptTheorems.CompleteInBytes` | gpt-utils/gpt-utils.cpp:414-465 | complete in the protocol means good signature, good header CRC and good entry-array CRC |
| `GptTheorems.SoundEnvExists` | gpt-utils/gpt-utils.h:85 | for every crc function and both kinds of device the assumptions of the update can be met |
| `GptCommit.ResealedGoodIff` | gpt-utils/gpt-utils.cpp:1444-1478 | a header resealed over the primary's header size has a good CRC under every checksum exactly when its own size field is that size |
| `GptCommit.GptDisk.GetDiskInfo` | gpt-utils/gpt-utils.cpp:1346-1419 | on success the structure holds both headers and both arrays as they are on the device, its entry, array and block size, the array CRCs, and both header CRCs over the primary's header size |
| `GptCommit.GptDisk.UpdateCrc` | gpt-utils/gpt-utils.cpp:1444-1478 | both headers are bound to the arrays in memory and the four CRC fields are those of arrays and headers; refused before the structure is filled |
| `GptCommit.GptDisk.Commit` | gpt-utils/gpt-utils.cpp:1481-1526 | the four writes in order, or a cut of them and a failure |
| `GptCommit.WriteCopy` | gpt-utils/gpt-utils.cpp:1126-1309 | header first, then the entries at the offset it announces |
| `GptTheorems.EditCommitSafe` | gpt-utils/gpt-utils.cpp:1444-1526 | any edit of both arrays, resealed and committed: a complete copy survives every cut, and all four writes leave both complete |
| `GptTheorems.CommitAndReload` | gpt-utils/gpt-utils.cpp:1346-1526 | succeeds exactly when no access fails, and then a fresh load holds the committed arrays in two complete copies; a complete copy is left in any case |
| `GptTheorems.EditTable` | gpt-utils/gpt-utils.cpp:1346-1526 | load, edit, reseal, commit and reload of a device with two complete copies: exactly without a fault both hold the edited arrays, and a complete copy is left in any case |
| `GptExample.GoodDiskServes` | gpt-utils/gpt-utils.cpp:1346-1526 | a device and a disk that meet all that the update and the load and commit ask, for every checksum and array |
| `GptExample.ForeignDiskIsRuined` | gpt-utils/gpt-utils.cpp:833-869 | a disk in the device's layout with a complete secondary copy that one BACKUP call leaves without any, for every checksum that tells two arrays apart |
| `TouchTable.ListedAtRank` | parts/src/org/lineageos/settings/shoulderkey/ShoulderKeyInputFiltrer.java:153-166 | a held slot stands in the pointer list at its rank, under its slot number |
| `TouchTable.NthHeldOfRank` | parts/src/org/lineageos/settings/shoulderkey/ShoulderKeyInputFiltrer.java:214-228 | freeing by the rank of a held slot frees that slot |
| `TouchMerger.InsertRepresents` | parts/src/org/lineageos/settings/shoulderkey/ShoulderKeyInputFiltrer.java:193-212 | an insertion keeps touch ids distinct, returns the touch's position in the pointer list, and moves no other touch |
| `TouchMerger.RemoveAfterInsert` | parts/src/org/lineageos/settings/shoulderkey/ShoulderKeyInputFiltrer.java:193-228 | removing at the index an insertion returned frees exactly that touch, known or new |
| `TouchMerger.StepCorrect` | parts/src/org/lineageos/settings/shoulderkey/ShoulderKeyInputFiltrer.java:86-191 | each input of well-formed sources yields one event the receiver accepts, showing exactly what is down at its latest coordinates, ids unchanged |
| `TouchMerger.OtherKeysSwallowed` | parts/src/org/lineageos/settings/shoulderkey/ShoulderKeyInputFiltrer.java:86-115 | keys of other devices, other keys, other key actions and keys without a mapping change nothing and send nothing |
| `TouchMerger.KeyIsShown` | parts/src/org/lineageos/settings/shoulderkey/ShoulderKeyInputFiltrer.java:86-115 | whatever is down, the event of the left key shows a pointer at the first mapped position, that of the right key at the second |
| `TouchMerger.HoverExitFreesAll` | parts/src/org/lineageos/settings/shoulderkey/ShoulderKeyInputFiltrer.java:167-172 | the end of a hover and a CANCEL free every slot |
| `TouchMerger.FullTableRefuses` | parts/src/org/lineageos/settings/shoulderkey/ShoulderKeyInputFiltrer.java:193-212 | a full table takes no further touch and answers -1 |
| `TouchMerger.StrayIndexIgnored` | parts/src/org/lineageos/settings/shoulderkey/ShoulderKeyInputFiltrer.java:214-228 | removing at an index that is no rank changes nothing |
| `TouchMerger.StrayRelease` | parts/src/org/lineageos/settings/shoulderkey/ShoulderKeyInputFiltrer.java:86-115 | the release of a key that is not down is delivered and refused, in any table |
| `TouchRuns.MergedStreamAcceptedIff` | parts/src/org/lineageos/settings/shoulderkey/ShoulderKeyInputFiltrer.java:86-191 | with CANCELs at any time, the receiver accepts the whole stream exactly when no input releases an orphaned key, and then every event is faithful |
| `TouchRuns.MergedStreamWellFormed` | parts/src/org/lineageos/settings/shoulderkey/ShoulderKeyInputFiltrer.java:86-191 | over every run of two interleaved sources in which no CANCEL comes with a key held, the merged stream follows the motion-event rules and is faithful |
| `TouchRuns.CancelOrphansKey` | parts/src/org/lineageos/settings/shoulderkey/ShoulderKeyInputFiltrer.java:167-172 | after a CANCEL with a key held, whatever comes between, the receiver has refused an event by the time the key is released |
| `TouchFilter.ShoulderKeyInputFiltrer.constructor` | parts/src/org/lineageos/settings/shoulderkey/ShoulderKeyInputFiltrer.java:43-52 | sixteen distinct free positions |
| `TouchFilter.ShoulderKeyInputFiltrer.InsertTouch` | parts/src/org/lineageos/settings/shoulderkey/ShoulderKeyInputFiltrer.java:193-212 | the two search loops on the array do what the insertion on the table says |
| `TouchFilter.ShoulderKeyInputFiltrer.RemoveTouch` | parts/src/org/lineageos/settings/shoulderkey/ShoulderKeyInputFiltrer.java:214-228 | the countdown loop frees the held position of the given rank |
| `TouchFilter.ShoulderKeyInputFiltrer.ResetTouch` | parts/src/org/lineageos/settings/shoulderkey/ShoulderKeyInputFiltrer.java:230-236 | every held position is freed |
| `TouchFilter.ShoulderKeyInputFiltrer.BuildMotionEvent` | parts/src/org/lineageos/settings/shoulderkey/ShoulderKeyInputFiltrer.java:149-191 | the pointers are listed before anything is freed, and the action word is rewritten for several pointers |
| `TouchFilter.ShoulderKeyInputFiltrer.ProcessShoulderKeyEvent` | parts/src/org/lineageos/settings/shoulderkey/ShoulderKeyInputFiltrer.java:86-115 | a key event changes the table and sends just what the merger's step says |
| `TouchFilter.ShoulderKeyInputFiltrer.ProcessTouchScreenEvent` | parts/src/org/lineageos/settings/shoulderkey/ShoulderKeyInputFiltrer.java:117-133 | a touch event changes the table and sends just what the merger's step says |
| `SessionTypes.FailsIffFull` | bluetooth/audio/utils/aidl_session/BluetoothAudioSession.cpp:158-180 | the search for a free cookie fails exactly when sixteen are live |
| `SessionTypes.CookiesUnique` | bluetooth/audio/utils/aidl_session/BluetoothAudioSession.cpp:158-190 | over every run of registrations on all sessions live cookies are unique, and a new one is live nowhere or refused because sixteen are |
| `SessionTypes.RegisterThenUnregister` | bluetooth/audio/utils/aidl_session/BluetoothAudioSession.cpp:158-191 | after any run a registration adds its cookie to its own type alone, and unregistering that cookie takes just it back |
| `AudioSession.SessionsApart` | bluetooth/audio/utils/aidl_session/BluetoothAudioSession.h:52-64 | cookies decode to their session type, so two sessions of different types never share a live cookie |
| `AudioSession.BluetoothAudioSession.RegisterStatusCback` | bluetooth/audio/utils/aidl_session/BluetoothAudioSession.cpp:158-181 | the lowest free cookie gets the callbacks; with sixteen live observers nothing changes |
| `AudioSession.BluetoothAudioSession.UnregisterStatusCback` | bluetooth/audio/utils/aidl_session/BluetoothAudioSession.cpp:183-190 | that cookie and no other is gone |
| `AudioSession.BluetoothAudioSession.NotifyAll` | bluetooth/audio/utils/aidl_session/BluetoothAudioSession.cpp:300-315 | every live observer is called exactly once with its own cookie |
| `AudioSession.BluetoothAudioSession.ReportControlStatus` | bluetooth/audio/utils/aidl_session/BluetoothAudioSession.cpp:405-423 | a control result reaches every live observer exactly once |
| `AudioSession.BluetoothAudioSession.UpdateAudioConfig` | bluetooth/audio/utils/aidl_session/BluetoothAudioSession.cpp:264-298 | a configuration is stored exactly when it is of the session type's kind; LE broadcast offload takes none |
| `AudioSession.BluetoothAudioSession.UpdateDataPath` | bluetooth/audio/utils/aidl_session/BluetoothAudioSession.cpp:248-262 | an unusable queue clears the data path and fails |
| `AudioSession.BluetoothAudioSession.OnSessionStarted` | bluetooth/audio/utils/aidl_session/BluetoothAudioSession.cpp:47-70 | which of port, configuration and queue is kept on each failure; only a start is announced |
| `AudioSession.BluetoothAudioSession.OnSessionEnded` | bluetooth/audio/utils/aidl_session/BluetoothAudioSession.cpp:72-82 | nothing is left, and observers hear of it just when the session had been ready |
| `AudioSession.BluetoothAudioSession.GetAudioConfig` | bluetooth/audio/utils/aidl_session/BluetoothAudioSession.cpp:90-107 | the tag is a function of the session type, ready or not |
| `AudioSession.BluetoothAudioSession.ReportAudioConfigChanged` | bluetooth/audio/utils/aidl_session/BluetoothAudioSession.cpp:109-134 | only LE offload sessions take the change and announce it |
| `AudioSession.BluetoothAudioSession.OutWritePcmData` | bluetooth/audio/utils/aidl_session/BluetoothAudioSession.cpp:323-360 | under any interference what was enqueued is, in order, the first r bytes of the buffer; it ends within 1000 polls, and short only for a stated reason: not ready, a full queue after all polls, a write that the queue refused, or the missing queue of an offload session |
| `AudioSession.BluetoothAudioSession.InReadPcmData` | bluetooth/audio/utils/aidl_session/BluetoothAudioSession.cpp:362-397 | the mirror image: the first r bytes of the buffer are what was dequeued, in order, the rest is untouched, and it ends short only for the same reasons |
| `AudioProvider.BluetoothAudioProvider.StartSession` | bluetooth/audio/hal/BluetoothAudioProvider.cpp:35-55 | a start is answered ok once tag, support and port pass, and makes the session ready exactly for startable types with a usable data path; sessions of an offload type get no queue |
| `AudioProvider.BluetoothAudioProvider.EndSession` | bluetooth/audio/hal/BluetoothAudioProvider.cpp:57-76 | the session is not ready afterwards and observers hear of it once |
| `AudioProvider.BluetoothAudioProvider.BinderDied` | bluetooth/audio/hal/BluetoothAudioProvider.cpp:146-155 | the death of the stack ends the session, and observers hear of it once if it was ready |
| `AudioProvider.BluetoothAudioProvider.UpdateAudioConfiguration` | bluetooth/audio/hal/BluetoothAudioProvider.cpp:109-130 | only a configuration of the held tag is taken, so the session's kind is kept |
| `AudioProvider.BluetoothAudioProvider.StreamReport` | bluetooth/audio/hal/BluetoothAudioProvider.cpp:78-107 | stack reports reach every observer while there is a session, and nobody otherwise |
| `AudioProvider.BluetoothAudioProvider.ShownConfig` | bluetooth/audio/utils/aidl_session/BluetoothAudioSession.cpp:90-107 | after any run of provider calls the shown tag depends on the type alone, and LE broadcast offload is never ready |
| `PortMachine.Entries` | bluetooth/audio/hw/device_port_proxy.cc:234-310 | in every run STARTED is entered only from STARTING on SUCCESS, STARTING only from STANDBY, SUSPENDING only from STARTED, and DISABLED left only by set-up or by hand |
| `PortMachine.RestartsThroughStandby` | bluetooth/audio/hw/device_port_proxy.cc:234-310 | between two entries into STARTED lie STANDBY and then STARTING |
| `PortMachine.StartOutcomes` | bluetooth/audio/hw/device_port_proxy.cc:261-272 | after any run that left a port in use at STANDBY, a request and an own SUCCESS give STARTED, a request and any other own result STANDBY |
| `PortMachine.SuspendOutcomes` | bluetooth/audio/hw/device_port_proxy.cc:273-285 | from STARTED a request and an own SUCCESS give STANDBY, a request and any other own result DISABLED |
| `PortMachine.UnaskedOutcomes` | bluetooth/audio/hw/device_port_proxy.cc:247-310 | without a request SUCCESS and RECONFIGURATION take STARTED to STANDBY, a failure does not, a port at rest takes no result, and an own session change or a stop gives DISABLED from every state |
| `PortMachine.DeafTo` | bluetooth/audio/hw/device_port_proxy.cc:123-159 | foreign cookies, callbacks of a port not in use and requests out of turn change nothing |
| `PortMachine.StartedSince` | bluetooth/audio/hw/device_port_proxy.cc:261-272 | a port that came to STARTED did so by a step from STARTING on a SUCCESS carrying its own cookie |
| `PortMachine.StandbySince` | bluetooth/audio/hw/device_port_proxy.cc:247-285 | a port that came to STANDBY did so by a step that moved it there: a result of its own, SUCCESS if it was suspending, a STANDBY set by hand, or a set-up on a ready session |
| `DevicePort.BluetoothAudioPort.SetUpPort` | bluetooth/audio/hw/device_port_proxy.cc:116-159 | set-up leads to STANDBY from any state; without a cookie the port stays unused |
| `DevicePort.BluetoothAudioPort.TearDownPort` | bluetooth/audio/hw/device_port_proxy.cc:218-232 | the port is unused and keeps its state |
| `DevicePort.BluetoothAudioPort.ControlResultCallback` | bluetooth/audio/hw/device_port_proxy.cc:234-295 | the state after a result, by the state before, and that it is one step of the machine, deaf to other cookies and to startResp |
| `DevicePort.BluetoothAudioPort.SessionChangedCallback` | bluetooth/audio/hw/device_port_proxy.cc:297-310 | an own change disables the port in use, any other changes nothing, as one step of the machine |
| `DevicePort.BluetoothAudioPort.CondwaitState` | bluetooth/audio/hw/device_port_proxy.cc:408-438 | true exactly in the state the request aims at, whatever happened while waiting |
| `DevicePort.BluetoothAudioPort.Start` | bluetooth/audio/hw/device_port_proxy.cc:440-476 | true exactly when requested from STANDBY, sent, and STARTED after the wait, and then by a SUCCESS of its own since the request |
| `DevicePort.BluetoothAudioPort.Suspend` | bluetooth/audio/hw/device_port_proxy.cc:478-510 | true exactly when requested from STARTED, sent, and at STANDBY after the wait, moved there since the request by a result of its own, SUCCESS if it was suspending, by hand, or by set-up |
| `DevicePort.BluetoothAudioPort.StopPort` | bluetooth/audio/hw/device_port_proxy.cc:512-525 | a port in use is DISABLED |
| `DevicePort.BluetoothAudioPort.SetPortState` | bluetooth/audio/hw/device_port_proxy.cc:611-613 | the state set by hand, as one step |
| `StreamPositions.FeedingPosition` | bluetooth/audio/hw/stream_apis.cc:52-131 | for any report the frames reached less the latency, zero at least, with the delay and the latency given by inequalities; between the frames presented less twice and less once the latency |
| `StreamPositions.RenderPosition` | bluetooth/audio/hw/stream_apis.cc:565-582 | never more than the frames rendered; the difference to the latency or zero, cut to 32 bits, with the delay and the latency given by inequalities |
| `StreamPositions.DelayIs` | bluetooth/audio/hw/stream_apis.cc:68-94 | the delay is the reported one when the stack answered and it lies between 50 ms and a second, otherwise 200 ms on top of the whole milliseconds of the counted frames |
| `StreamPositions.LatencyIs` | bluetooth/audio/hw/stream_apis.cc:109 | the latency is the whole frames played in that many milliseconds |
| `StreamPositions.FrameCountIs` | bluetooth/audio/hw/stream_apis.cc:694-696 | the frame count is the whole frames of the interval |
| `StreamPositions.FallbackUpper` | bluetooth/audio/hw/stream_apis.cc:86-94 | the fallback latency never exceeds the data interval in ms plus 200 at the rate the frames were counted at |
| `StreamPositions.FallbackLower` | bluetooth/audio/hw/stream_apis.cc:694-696 | from 1000 frames a second on it loses at most one millisecond of it |
| `StreamPositions.FallbackBoundIff` | bluetooth/audio/hw/stream_apis.cc:86-94 | for a stream opened at one rate and running at another, the bound holds for every data interval exactly when the running rate is not below the opening one |
| `OutStream.BluetoothStreamOut.FallbackLatency` | bluetooth/audio/hw/stream_apis.cc:784-788 | in every stream state at the opening rate or a faster one the fallback latency is at most the interval and 200 ms, and at the opening rate that up to a rounding |
| `OutStream.BluetoothStreamOut.constructor` | bluetooth/audio/hw/stream_apis.cc:758-788 | a stream opens with both counters at zero, the preferred interval or 10 ms, no less than 10 ms for spatialised output, and the whole frames of that interval |
| `OutStream.BluetoothStreamOut.StandbyOrPause` | bluetooth/audio/hw/stream_apis.cc:268-295 | rendered frames are forgotten only when started; busy exactly in the two waiting states; from STARTED 0 exactly when the suspension was sent and led to STANDBY |
| `OutStream.BluetoothStreamOut.Resume` | bluetooth/audio/hw/stream_apis.cc:635-664 | from STANDBY 0 exactly when the start was sent and led to STARTED, and which other state earns which answer |
| `OutStream.BluetoothStreamOut.SetParameters` | bluetooth/audio/hw/stream_apis.cc:303-397 | what reconfiguring, suspending, closing and exiting do to the port, the rate and the counters, and that nothing else touches them |
| `OutStream.BluetoothStreamOut.Write` | bluetooth/audio/hw/stream_apis.cc:504-563 | a stream that was not started resumes first, one that is or becomes started is offered the data once; a write that gets anything through counts every byte offered in both counters, others count nothing |
| `OutStream.BluetoothStreamOut.PresentationPosition` | bluetooth/audio/hw/stream_apis.cc:666-679 | the position bounds in every reachable stream state |
| `OutStream.BluetoothStreamOut.RenderedPosition` | bluetooth/audio/hw/stream_apis.cc:565-582 | in every reachable stream state the render position is at most the frames presented, and less the latency while they fit 32 bits |
| `AudioParams.ParseAudioParams` | bluetooth/audio/hw/utils.cc:33-49 | the loop yields the map of the segments, later ones overriding |
| `AudioParams.PrintParams` | bluetooth/audio/hw/stream_apis.cc:477-480 | every entry is printed once, in some order, and parsing the result of a clean map gives the map back |
| `AudioParams.ParsePrint` | bluetooth/audio/hw/utils.h:27-36 | parsing the printing of a clean map, in any order, gives the map back |
| `AudioParams.ParsePrintParse` | bluetooth/audio/hw/utils.cc:33-49 | for every text, parsing what was printed of its parse changes nothing |
| `AudioParams.LaterWins` | bluetooth/audio/hw/utils.cc:33-49 | a segment appended to any text overrides what the text said of its key and nothing else |
| `AudioParams.EntryShapes` | bluetooth/audio/hw/utils.h:29-36 | keys alone, second equals signs and empty keys |
| `SingleBit.IsSingleBit` | bluetooth/audio/utils/session/BluetoothAudioSupportedCodecsDB.cpp:117-129 | for all 32-bit words it ends, and is true exactly when one bit of the intersection is set |
| `SingleBit.SelectsMeans` | bluetooth/audio/utils/session/BluetoothAudioSupportedCodecsDB.cpp:142-179 | one masked bit and an overlap with a capability inside the mask mean exactly one selected, supported value |
| `SingleBit.IsOffloadSbcConfigurationValid` | bluetooth/audio/utils/session/BluetoothAudioSupportedCodecsDB.cpp:142-179 | accepted exactly when every field selects one supported value and the bit pool is a range within the capability's |
| `SingleBit.IsOffloadAptxConfigurationValid` | bluetooth/audio/utils/session/BluetoothAudioSupportedCodecsDB.cpp:243-297 | the same for the three fields of aptX and aptX HD |
| `LockLedger.RunBalanced` | power/utils.c:271-350 | every run leaves each lock acquired active once or released once, exactly when the library can release |
| `LockLedger.LostWithoutRelease` | power/utils.c:271-314 | the books of a run balance exactly when the library can release or every lock that came back found its node |
| `LockLedger.RunConserves` | power/utils.c:271-350 | over every run each lock acquired is active, released, or lost for want of memory and of a release function, once |
| `LockLedger.RunIsStack` | power/utils.c:271-350 | with a release function or without, the locks of a hint are a stack of their own, untouched by other hints |
| `LockLedger.UndoReleasesTop` | power/utils.c:316-350 | an undo releases the most recent lock of its hint, and nothing when there is none |
| `LockList.AddListNode` | power/list.c:47-67 | a new node right behind the head of an acyclic list, or nothing exactly when there is no memory |
| `LockList.RemoveListNode` | power/list.c:77-108 | the node is unlinked wherever it stands and the list stays one; an unknown node changes nothing |
| `LockList.FindNode` | power/list.c:126-145 | the first node that compares equal |
| `LockList.PowerHints.PerformHintAction` | power/utils.c:271-314 | one step of the books: an acquired lock is put on the list, exactly without memory given back, or lost when there is no release function either |
| `LockList.PowerHints.UndoHintAction` | power/utils.c:316-350 | one step of the books: the latest lock of the hint is released and unlinked, the others keep their order; nothing without a release function |
| `HintCounts.HintKeeps` | power/power-common.c:94-110 | every hint keeps handles positive exactly while counts are, and acquired locks equal held plus released |
| `HintCounts.HeldMeanwhile` | power/power-common.c:94-110 | over any calls in which enables outnumber disables throughout, the first enable's lock alone is held, counted, and nothing is given back |
| `HintCounts.LastDisableReleases` | power/power-common.c:94-110 | the disable that makes the numbers equal gives that lock back and leaves the hint unused |
| `HintCounts.NothingHeld` | power/power-common.c:94-110 | a disable of a hint that holds nothing and an enable that gets no lock count nothing |
| `HintCounts.PowerHal.constructor` | power/power-common.c:53-61 | no hint holds a lock |
| `HintCounts.PowerHal.PowerHint` | power/power-common.c:72-113 | only a first enable asks for a lock and only the last disable releases it, over every run |
| `KeyMapping.FlushAgrees` | parts/src/org/lineageos/settings/shoulderkey/ShoulderKeyUtils.java:239-244 | after a flush cache and table are the same rows and map what the cache mapped |
| `KeyMapping.RunGood` | parts/src/org/lineageos/settings/shoulderkey/ShoulderKeyUtils.java:147-194 | over every run keys stay unique in cache and table and the cache knows all of the table |
| `KeyMapping.SaveAgreesIff` | parts/src/org/lineageos/settings/shoulderkey/ShoulderKeyUtils.java:147-156 | a save keeps the enabled flags in agreement exactly when the key is known or its sibling not disabled |
| `KeyMapping.FlagsAgreeIff` | parts/src/org/lineageos/settings/shoulderkey/ShoulderKeyUtils.java:147-194 | the flags agree after all runs exactly when no package starts with a single, disabled rotation |
| `KeyMapping.FlagsCanPart` | parts/src/org/lineageos/settings/shoulderkey/ShoulderKeyUtils.java:147-156 | a table and one save after which the two rotations disagree |
| `KeyMapping.LookupPut` | parts/src/org/lineageos/settings/shoulderkey/ShoulderKeyDBHelper.java:93-126 | saving a row changes what its key maps to, and no other key |
| `KeyMapping.LookupSave` | parts/src/org/lineageos/settings/shoulderkey/ShoulderKeyUtils.java:147-156 | a save sets its key's coordinates and keeps its flag, set for a new key, and no other key |
| `KeyMapping.LookupEnable` | parts/src/org/lineageos/settings/shoulderkey/ShoulderKeyUtils.java:183-194 | enabling sets the flag of both rotations, keeps the coordinates of a known one, and touches no other key |
| `KeyCache.ShoulderKeyDBHelper.GetAppKeyInfo` | parts/src/org/lineageos/settings/shoulderkey/ShoulderKeyDBHelper.java:147-154 | the first row of the key, or none |
| `KeyCache.ShoulderKeyDBHelper.SaveAppKeyInfo` | parts/src/org/lineageos/settings/shoulderkey/ShoulderKeyDBHelper.java:93-126 | update the rows of a known key, insert an unknown one |
| `KeyCache.ShoulderKeyDBHelper.GetAllAppsKeyInfo` | parts/src/org/lineageos/settings/shoulderkey/ShoulderKeyDBHelper.java:156-195 | a new object for every row, in order |
| `KeyCache.ShoulderKeyUtils.constructor` | parts/src/org/lineageos/settings/shoulderkey/ShoulderKeyUtils.java:98-107 | the cache starts as the table |
| `KeyCache.ShoulderKeyUtils.GetAppInfo` | parts/src/org/lineageos/settings/shoulderkey/ShoulderKeyUtils.java:158-165 | the first mapping object of the key, or null |
| `KeyCache.ShoulderKeyUtils.SaveCoordinate` | parts/src/org/lineageos/settings/shoulderkey/ShoulderKeyUtils.java:147-156 | a known mapping is changed in place, a new one added enabled |
| `KeyCache.ShoulderKeyUtils.SetEnabledByPackage` | parts/src/org/lineageos/settings/shoulderkey/ShoulderKeyUtils.java:183-194 | both rotations of the package get the flag, missing ones are created |
| `KeyCache.ShoulderKeyUtils.SaveAllAppsCoordinate` | parts/src/org/lineageos/settings/shoulderkey/ShoulderKeyUtils.java:239-244 | every cached mapping is written back, then the cache is loaded anew |
| `KeyCache.ShoulderKeyUtils.ResetAllAppsCoordinate` | parts/src/org/lineageos/settings/shoulderkey/ShoulderKeyUtils.java:246-250 | cache and table are empty |

## Left out

- Device paths, `ioctl`, sysfs and the UFS boot-LUN request: a device that may fail at any access and a boot-LUN flag stand for them.
- `gpt_utils_get_partition_map` and the LUN list of `prepare_boot_update`: grouping of names by device, nothing hard.
- `parts` user interface, notifications, tiles and services: no state of their own.
- The database's global-mode setting and the foreground-app and rotation listeners: they only choose which key is looked up.
- Shared coordinate arrays: a mapping holds its coordinates by value, so a caller that later writes into an array it passed in is not modelled; the same holds for the touch positions' coordinate objects, which the filter never shares.
- Event and down times, tool types and the other constant fields of a motion event.
- The HIDL twins of session and port, and the HIDL to AIDL conversions: the same loops and state machine again.
- `GetOffloadCodecCapabilities`, the AAC and LDAC validators and the capability tables: finite enumerations; the AIDL enumerations themselves are not part of this repository, and only that session types have distinct byte codes is used.
- Latency modes, metadata updates and `ReportLowLatencyModeAllowedChanged`: stored or passed on unchanged, by the same notification loop.
- StreamPositions.FeedingPosition: counters are unbounded, so a wrap after 2^64 frames is not modelled.
- GptDevice.BlockDevice.BlkRead: a read that ends short, which `blk_rw` reports as success, is not modelled.
- GptDevice.BlockDevice.BlkWrite: a write that ends short, which `blk_rw` reports as success, is not modelled; a short write that is reported as a failure is.
- AudioSession.BluetoothAudioSession.OutWritePcmData: an offload session has no queue and the source dereferences it; the model ends there with the outcome NoQueue and says nothing of what follows.
- AudioSession.BluetoothAudioSession.InReadPcmData: the same missing queue.
- The mono downmix of a port, the sleep after a write that got nothing through, and the input stream, whose counter only grows.
- `power.c` is a duplicate of `power-common.c`; hint overrides, sysfs governors and the XML hint files are configuration.
