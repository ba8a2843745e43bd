# A verified model of the DJ engine and its co-pilot

This Dafny project models the stateful core of a DJ engine (Rust) and its co-pilot service
(Python) and proves what each part is for. The parts share no code, so each is a module or two.

| part | files | what it is about |
|---|---|---|
| cloud sync | `CloudRows`, `CloudStore`, `CloudSyncer`, `CloudSync` | any number of replicas with outboxes, one remote, last write wins: outbox safety and convergence over every run |
| sync daemon | `SyncDaemon` | backoff arithmetic; the wake / skip / stop flags between the loop thread and any number of RPC threads |
| HTTP source | `HttpPages`, `HttpSource` | a page cache that must read like the flat remote file, and is a true LRU; ranges follow RFC 7233 |
| decoder | `DecodeSlots`, `DecodeRing`, `DecodeTracks` | the slot table and stem bundles; control, decoder and audio threads interleaved over the sample rings; what a handle plays, told by the packets of its `open` |
| reducer | `EngineState`, `EngineRuns`, `EngineWrites`, `LoopSnap`, `OneShotSweeper` | the event-sourced reducer: reachable-state invariant, replay as three folds, who writes what over a log, bar loops, timed effects and their sweeper |
| playlist | `Playlist` | a table with a position column that reads as a sequence |
| auto-mix | `AutoMix` | arming, submitting and cancelling plans at await granularity |
| RPC client | `EngineClient` | pairing concurrent calls with responses by request id |
| waveform | `Waveform` | exact bucket edges, 8-bit quantisation, peak enclosure |

Objects that the source updates in place are classes whose methods are tied to functions on
values; concurrent protocols are step machines, and the class methods are those steps. Theorems
speak of every run of a machine: a run is any sequence of steps, and a step that the environment
chooses (what the engine reports, whether a request fails, when a timeout fires) is a parameter.
`Wrappers` holds `Option` and `Result`.

Floating-point numbers are exact reals; NaN and infinities do not occur. Machine integers carry
their ranges, and saturation is written out where the source saturates. Clocks and timestamps are
parameters.

Assumptions that theorems make are in their `requires` or in the machine's step conditions:

* Cloud sync: a local write gets a stamp that is new for its track and above the row it replaces;
  comparing and writing one pulled row is one step with respect to the same replica's writes, and
  so is loading, uploading and unqueueing one id (`LateMergeKeepsInv` and `LateWriteKeepsMark` say
  exactly when a write survives without that).
* HTTP source: the server answers consistently, either 206 with exactly the requested range and
  the total, or 200 with the whole body; file length plus 256 KiB fits in 64 bits.
* Decoder rings: one control thread and one audio thread. Reads and closes may overlap and may use
  stale handles; `DeliveredIsPrefix` says exactly what that costs.
* Auto-mix: a deck's track does not change while its plan is being submitted, and a cancelled task
  unwinds before its deck is switched on again and ticked. `OffIsFinalIff`, `BooksLostIff` and
  `SecondPlanIffTrackChanged` say, without them, exactly what fails when; `EarlyRearmEscapesOff` is
  such a run.

Where the code and its own documentation disagree the model follows the code:

* `EffectOneShot.beats` is documented to treat out-of-range values as 1
  (`engine/src/state.rs:393-395`); the reducer clamps to 1..64, so 200 becomes 64.
* `dequeue` is documented to leave positions sparse (`copilot/playlist.py:133-137`); it renumbers
  at once when it returns a track.
* `reorder` says the first `added_at` of a duplicated track is kept (`copilot/playlist.py:232-236`);
  the dict keeps the last. `ReorderKeepsStamps` gives the exact condition.
* `call` waits for `auth.hello` when the socket is open but unauthenticated
  (`copilot/engine_client.py:187-188`); the two come and go together, so nobody ever waits there.
* The degenerate bucket branch (`copilot/waveform.py:128-132`) cannot be reached, and the code
  -128 is never produced.

## Model

| member | source | states |
|---|---|---|
| CloudRows.WireRoundTrip | copilot/cloud_sync/client.py:43-77 | a wire row pulled and pushed again is unchanged if and only if it has eight cue slots with no value below -1 |
| CloudRows.PushedRowIsCanonical | copilot/library.py:578-605 | every pushed row is of that form, and another replica reads the same cues from it |
| CloudRows.ToWireMeaning | copilot/cloud_sync/client.py:43-77 | a pushed row carries the shared columns and the stamp as they are, and eight cue slots, each its position or -1 |
| CloudRows.FromWireMeaning | copilot/library.py:607-645 | a pulled row keeps the shared columns, cues and stamp; its grid has anchor 0 and period * max(bpm, 1) = 60000, no downbeats, no loudness, source `cloud` |
| CloudStore.InMemorySyncClient.ListTracks | copilot/cloud_sync/client.py:140-146 | returns exactly the rows stamped at or after the bound, each once |
| CloudStore.InMemorySyncClient.UpsertTrack | copilot/cloud_sync/client.py:152-156 | last write wins on the stamp, equal stamps overwrite, other rows untouched |
| CloudStore.TrackLibrary.AddTrack | copilot/library.py:469-516 | a local write replaces the row, stamps it and queues its id |
| CloudStore.TrackLibrary.PendingPushIds | copilot/library.py:533-540 | lists every queued id once, earliest queued first |
| CloudStore.TrackLibrary.ClearPendingPush | copilot/library.py:542-548 | removes exactly that id from the outbox |
| CloudStore.TrackLibrary.RequeueAllForPush | copilot/library.py:550-576 | every track is queued, what was queued already keeps its place, and the result is the length of the queue |
| CloudStore.TrackLibrary.UpsertFromRemote | copilot/library.py:607-645 | writes the pulled row without touching the outbox |
| CloudSyncer.MergedDistinctRows | copilot/cloud_sync/syncer.py:87-131 | merging rows one after another equals merging all at once, outcomes included |
| CloudSyncer.PullMeaning | copilot/cloud_sync/syncer.py:87-131 | track by track: a row stamped in the window is inserted, or applied if strictly newer, or loses to the local row; every other track stays |
| CloudSyncer.CountsPresent | copilot/cloud_sync/syncer.py:146-199 | of ids listed once each, the upload count is the number that have a local row |
| CloudSyncer.LibrarySyncer.Pull | copilot/cloud_sync/syncer.py:87-131 | the library afterwards is the last-write-wins merge; the counters are the sizes of the outcome classes; offline changes nothing |
| CloudSyncer.PassStopsAt | copilot/cloud_sync/syncer.py:146-199 | a push pass stops before the present id whose upsert raises, all present ids before it uploaded, or else at the end |
| CloudSyncer.LibrarySyncer.PushPending | copilot/cloud_sync/syncer.py:146-199 | an aborted push clears exactly the ids it uploaded and keeps all others; counts match |
| CloudSync.StepKeepsInv | copilot/cloud_sync/syncer.py:87-199 | every step of every replica keeps the sync invariant and only raises remote stamps |
| CloudSync.RunKeepsInv | copilot/cloud_sync/syncer.py:87-199 | so does every run |
| CloudSync.StepMeaning | copilot/cloud_sync/syncer.py:87-199 | each step's effect on the stepping replica and the remote, stamps and queue times written out; no other replica changes |
| CloudSync.OutboxSafety | copilot/library.py:506-515 | at every point of every run no track has left the remote and no stamp there has fallen, an outbox names only existing tracks, and a row not in it is at the remote with an equal or higher stamp |
| CloudSync.HighestWriteKept | copilot/cloud_sync/syncer.py:146-199 | the highest-stamped version ever written is the remote's row, or still held and queued by the replica that wrote it |
| CloudSync.MergesSettle | copilot/cloud_sync/syncer.py:87-131 | merging fetched rows in any order lowers no local stamp and leaves each replica at least as new as every row it merged |
| CloudSync.Convergence | copilot/cloud_sync/syncer.py:87-199 | once all outboxes have drained and every replica has merged every remote row, in any order, each replica has exactly the remote's tracks and would push exactly the remote's rows, which are the highest-stamped ever written |
| CloudSync.PullIsRun | copilot/cloud_sync/syncer.py:87-131 | a pull pass, row by row, is a run of merges that covers every fetched row |
| CloudSync.PushIsRun | copilot/cloud_sync/syncer.py:146-199 | a push pass, complete or cut short, is a run of the machine |
| CloudSync.SetHotCuesConverges | copilot/library.py:734-762 | after `set_hot_cues` a converged world converges again if and only if the cues are the remote's already |
| CloudSync.LateMergeKeepsInv | copilot/cloud_sync/syncer.py:109-122 | a pulled row written over a local write that landed after its stamp comparison keeps the invariant if and only if it is no older than that write or the remote has caught up; otherwise the write is lost |
| CloudSync.LateWriteKeepsMark | copilot/library.py:542-548 | a clear that races a local write keeps the outbox safe if and only if the row is no newer than what was uploaded or than the remote |
| SyncDaemon.BackoffIsCappedDoubling | copilot/cloud_sync/daemon.py:202-224 | the wait is min(tick * 2^f, 600): the exponent clamp is unobservable |
| SyncDaemon.BackoffMonotone | copilot/cloud_sync/daemon.py:202-224 | the wait never falls from the first failure on and never passes 600 s |
| SyncDaemon.BackoffSchedule | copilot/cloud_sync/daemon.py:202-224 | the wait is the tick, then min(2 * tick, 600), then each time twice the last up to 600 s |
| SyncDaemon.FailuresSinceClean | copilot/cloud_sync/daemon.py:257-261 | over any sequence of ticks the failure count is the number of ticks since the last clean one |
| SyncDaemon.OwedMeaning | copilot/cloud_sync/daemon.py:166-190 | the recorded demand is open exactly while some call has demanded a tick and none has started, nor a skip been asked for, since |
| SyncDaemon.CountersMeaning | copilot/cloud_sync/daemon.py:346-353 | the recorded counters are the numbers of such actions of the run: skips taken, skips asked for, ticks started after the stop |
| SyncDaemon.FirstFailureBacksOff | copilot/cloud_sync/daemon.py:202-224 | no failure count waits less than none if and only if the tick is at most 600 s |
| SyncDaemon.StepKeepsInv | copilot/cloud_sync/daemon.py:325-363 | every step of every thread keeps the protocol invariant |
| SyncDaemon.NoLostWakeup | copilot/cloud_sync/daemon.py:166-190 | a call's demand for a tick, answered by no tick and overridden by no later skip, shows as a set event or a loop past its wait with the skip flag clear, in every interleaving |
| SyncDaemon.SkipsBounded | copilot/cloud_sync/daemon.py:166-190 | on every run the iterations skipped are no more than the calls that asked for a skip |
| SyncDaemon.NoLostStop | copilot/cloud_sync/daemon.py:192-200 | of the ticks of a run at most one starts after a stop flag was set, and the loop cannot sleep through it |
| SyncDaemon.DemandIsAnswered | copilot/cloud_sync/daemon.py:325-363 | a call's open demand is answered by a tick within six loop steps without any timeout |
| SyncDaemon.StopIsAnswered | copilot/cloud_sync/daemon.py:325-363 | after `stop` the loop exits within six steps without any timeout |
| SyncDaemon.Daemon.EndTick | copilot/cloud_sync/daemon.py:252-281 | a clean tick sets the failure count to 0, any other adds one; the statistics are the tick's own counters and the deadline stays |
| SyncDaemon.Daemon.LoopOnce | copilot/cloud_sync/daemon.py:325-363 | each stretch of the loop is the protocol's step, with failures, statistics and the next deadline |
| SyncDaemon.Daemon.WakeNowFlag | copilot/cloud_sync/daemon.py:166-190 | the first statement of `wake_now` is the protocol's step |
| HttpPages.PagesDisjoint | engine/src/audio/http_source.rs:386-403 | cached pages never overlap |
| HttpPages.AlignDownMeaning | engine/src/audio/http_source.rs:205-215 | the start of a page is a multiple of 65536, at most 65535 bytes before the offset |
| HttpPages.TouchedSinceMeaning | engine/src/audio/http_source.rs:186-203 | touched since means touched at some point after which the page itself was not |
| HttpPages.MostRecent | engine/src/audio/http_source.rs:186-203 | an element is among the n most recent if and only if fewer than n others were touched since |
| HttpSource.SlicedCoherent | engine/src/audio/http_source.rs:386-403 | slicing keeps pages aligned, non-empty, disjoint and equal to the file, and touches them in order |
| HttpSource.HttpMediaSource.Open | engine/src/audio/http_source.rs:138-182 | opens at position 0 with a coherent cache that holds the first 256 KiB; fails exactly on a failed request or an empty file on a range server |
| HttpSource.HttpMediaSource.SliceIntoPages | engine/src/audio/http_source.rs:386-403 | the loop computes the page-by-page insertion |
| HttpSource.HttpMediaSource.CacheLookup | engine/src/audio/http_source.rs:186-203 | hits exactly when the page is cached, names it, and moves it to the back |
| HttpSource.HttpMediaSource.FetchAround | engine/src/audio/http_source.rs:205-250 | leaves the wanted page cached after the trim; an error changes no page |
| HttpSource.AccessTouchesMeaning | engine/src/audio/http_source.rs:205-250 | a hit touches its one page; a miss that page and the next, four in all or up to the end of the file, in order |
| HttpSource.FetchIsTouches | engine/src/audio/http_source.rs:205-250 | fetching and trimming leaves exactly the 16 most recent pages, the fetched one among them |
| HttpSource.CachedIffRecent | engine/src/audio/http_source.rs:186-250 | on a range server a touched page is cached if and only if fewer than 16 others were touched since |
| HttpSource.HttpMediaSource.Read | engine/src/audio/http_source.rs:260-293 | returns exactly the file's bytes at the cursor, more than none before the end and none after it |
| HttpSource.ReadLen | engine/src/audio/http_source.rs:280-293 | a read ends at the end of the buffer, the 64 KiB page or the file, whichever comes first |
| HttpSource.HttpMediaSource.Seek | engine/src/audio/http_source.rs:296-325 | to n, to length + delta or to position + delta, cut to 0 .. 2^64 - 1; cache and network untouched |
| HttpSource.HttpMediaSource.Replay | engine/src/audio/http_source.rs:260-325 | any sequence of seeks and reads delivers what it delivers on the flat file |
| HttpSource.HttpMediaSource.ReadToEnd | engine/src/audio/http_source.rs:260-293 | reading until nothing comes terminates with the whole suffix |
| DecodeSlots.HandleRoundTrip | engine/src/audio/decode.rs:729-742 | a handle is slot * 2^28 + id modulo 2^28, gives both back, and is "none" for exactly one pair |
| DecodeSlots.SymphoniaDecodeService.Open | engine/src/audio/decode.rs:497-557 | a failed open leaves the table as it was; a good one claims the first free slot under a fresh handle |
| DecodeSlots.SymphoniaDecodeService.Close | engine/src/audio/decode.rs:595-636 | releases exactly the handle's slot, drained; closing "none" or a free slot changes nothing |
| DecodeSlots.SymphoniaDecodeService.Read | engine/src/audio/decode.rs:560-593 | pops a prefix of the ring, pads with silence, and counts one underrun exactly when it padded |
| DecodeSlots.SymphoniaDecodeService.OpenStems | engine/src/audio/decode.rs:308-337 | claims four distinct fresh slots, or restores the table if and only if no opened handle reads as "none" |
| DecodeSlots.SymphoniaDecodeService.CloseAll | engine/src/audio/decode.rs:363-372 | releases exactly the slots of the handles given |
| DecodeSlots.AfterRollback | engine/src/audio/decode.rs:308-337 | when rolling back restores the table exactly |
| DecodeSlots.OpenedDistinct | engine/src/audio/decode.rs:497-557 | the slots of one bundle are pairwise different |
| DecodeRing.InterleaveAt | engine/src/audio/decode.rs:1079-1121 | a packet's two channels alternate, left first |
| DecodeRing.StreamAt | engine/src/audio/decode.rs:927-1017 | with f the frames of the packets before p, samples 2(f+k) and 2(f+k)+1 of the stream are the left and right sample of frame k of packet p |
| DecodeRing.StreamLength | engine/src/audio/decode.rs:1115-1118 | the stream has two samples for every frame of the packets |
| DecodeRing.FrameAt | engine/src/audio/decode.rs:1115-1118 | every place of the stream belongs to some frame of some packet |
| DecodeRing.StepKeepsInv | engine/src/audio/decode.rs:497-636 | every step of control, decoder and audio threads keeps the ring invariant, however `read` and `close` overlap and whatever handles they are given |
| DecodeRing.OneDecoderPerRing | engine/src/audio/decode.rs:497-557 | a ring never has two live decoder threads |
| DecodeRing.RingsBounded | engine/src/audio/decode.rs:89-93 | there are 16 rings, and none ever holds more than 48000 samples |
| DecodeRing.WaitsIffFull | engine/src/audio/decode.rs:1123-1137 | an armed decoder pushes its next sample, or keeps it exactly while its ring holds 48000 |
| DecodeRing.UnderrunsCountPaddedReads | engine/src/audio/decode.rs:560-593 | a read fills the whole buffer, with the samples it popped and then silence, and the underrun counter is the number of reads that needed silence |
| DecodeRing.DeliveredInOrder | engine/src/audio/decode.rs:1079-1137 | on every run the samples a handle delivers are samples of their tracks' streams, those of one track in stream order and none twice |
| DecodeRing.DeliveredIsSubsequence | engine/src/audio/decode.rs:560-593 | a handle delivers only its own track's samples, in order, if and only if no pop of it found another track in the slot, closes overlapping or not |
| DecodeRing.DeliveredIsPrefix | engine/src/audio/decode.rs:560-636 | it delivers samples 0, 1, 2, ... of its track if and only if, besides, no close drain and no foreign read took a sample of the track before one of its pops |
| DecodeRing.CloseOverlapsRead | engine/src/audio/decode.rs:595-636 | a run in which a close drains the first sample under a read, which then delivers the second alone |
| DecodeRing.StaleReadSpoils | engine/src/audio/decode.rs:560-593 | a read whose slot has passed on takes the new owner's next sample, and its handle never delivers a prefix again |
| DecodeRing.OpenHandleLosesNothing | engine/src/audio/decode.rs:1079-1137 | for an open slot, what left the ring, what is queued and what is still to push make up the stream; ended and read by its handle alone, all of it is delivered |
| DecodeRing.InTurnDeliversPrefix | engine/src/audio/decode.rs:497-636 | when callers take turns every handle delivers a prefix of its track, and in the end all of it |
| DecodeTracks.OpenedBy | engine/src/audio/decode.rs:497-557 | every generation is one `open` of the run: its stream is that of the packets claimed before its spawn, its handle the slot claimed |
| DecodeTracks.PlaysStream | engine/src/audio/decode.rs:927-1017 | samples are numbered by the stream if and only if they play the packets: every frame in packet order, left before right, none missing, repeated or foreign |
| DecodeTracks.DeliveredFromPackets | engine/src/audio/decode.rs:1079-1137 | every sample any handle delivers is the left or right sample of a frame of the packets its `open` was given, at its place in them |
| DecodeTracks.DeliveredPlaysIff | engine/src/audio/decode.rs:560-636 | a handle plays its own packets from the first frame on if and only if none of its pops found another track in the slot and nobody had taken a sample of that track before |
| DecodeTracks.OpenRingHoldsTrack | engine/src/audio/decode.rs:1079-1137 | what left an open slot's ring and then what is in it plays its packets from the start; all of them once the decoder has ended well |
| DecodeTracks.InTurnPlays | engine/src/audio/decode.rs:497-636 | when callers take turns every handle plays its own packets from the start, and in the end to the last frame |
| DecodeTracks.ReadAlone | engine/src/audio/decode.rs:560-593 | an uninterrupted read takes min(wanted, queued) samples in ring order and counts an underrun exactly when fewer were queued than wanted |
| EngineRuns.DefaultInv | engine/src/state.rs:531-561 | the default state meets the invariant |
| EngineRuns.ApplyKeepsInv | engine/src/state.rs:741-1201 | every event of every kind keeps the invariant |
| EngineRuns.ReachableInv | engine/src/state.rs:741-1201 | in every reachable state: a live one-shot is on an enabled assigned slot, LFO targets fit, active loops have both ends, loaded means bpm > 0 and bpm * period = 60000, stem mode implies loaded, at most 64 downbeats, controls in range, master volume never moved |
| EngineRuns.ApplyIsLocal | engine/src/state.rs:741-1201 | an event reads and writes the one deck it names, or only the master section |
| EngineRuns.ReplayProjects | engine/src/state.rs:741-1201 | each part of a replayed state is the fold of that part's own events |
| EngineRuns.ReplayFactorises | engine/src/state.rs:741-1201 | logs with the same deck-A, deck-B and master subsequences reach the same state |
| EngineWrites.LeftAlone | engine/src/state.rs:741-1201 | a field of a deck that no event of a log writes is at the end what it was at the start |
| EngineWrites.LastPlayPause | engine/src/state.rs:1007-1012 | a deck plays if its last play, pause, load or unload was a play |
| EngineWrites.LastCue | engine/src/state.rs:1013-1018 | the playhead is where the last cue put it |
| EngineWrites.HotCueRecalls | engine/src/state.rs:1038-1053 | triggering a hot cue jumps to where it was last set, whatever came between but a new track; past the eighth slot nothing happens |
| EngineWrites.LastEq | engine/src/state.rs:1025-1037 | each band is at its own last setting, cut to -26 .. 6 dB |
| EngineWrites.LastPitch | engine/src/state.rs:1107-1113 | pitch is at its last setting, cut to -12 .. 12 semitones |
| EngineWrites.LastTempo | engine/src/state.rs:1114-1120 | tempo is at its last setting, cut to 0.5 .. 2 |
| EngineWrites.LastReset | engine/src/state.rs:1121-1125 | a reset leaves both neutral until the next bend |
| EngineWrites.LastStemGain | engine/src/state.rs:843-856 | a stem is at its last gain, cut to 0 .. 1, until the next load |
| EngineWrites.ManualLoop | engine/src/state.rs:1054-1064 | an in point and then an out point arm the loop between the two playheads, until the next loop event |
| EngineWrites.LoopEnds | engine/src/state.rs:1058-1070 | an out point alone arms nothing, and leaving a loop forgets both ends |
| EngineWrites.LastCopilot | engine/src/state.rs:1126-1192 | the copilot has a deck if the last word on it was an engage; a take-over also sets the handoff frame |
| EngineWrites.UnloadEmpties | engine/src/state.rs:857-859 | an unload leaves the deck as at the start; the default state written out |
| EngineWrites.FreshLoad | engine/src/state.rs:746-842 | a load starts from the top, stopped, with the track's cues, no phase offset and all stems up, and keeps tone, loop and effects |
| EngineWrites.LastLoad | engine/src/state.rs:746-842 | track and grid are those of the last load: 120 BPM for a track without a tempo, bpm * period = 60000, the first 64 downbeats |
| EngineWrites.PhaseAddsUp | engine/src/state.rs:860-863 | between loads the phase offset is the sum of the nudges, unless a partial sum leaves 32 bits |
| EngineWrites.NudgeStep | engine/src/state.rs:860-863 | one nudge adds its delta, stopping at the ends of the 32-bit range |
| EngineWrites.SlotStartsAfresh | engine/src/state.rs:864-892 | assigning starts a slot at half wet, on and without parameters, LFO or timer; clearing empties it; past the third slot nothing happens |
| EngineWrites.LastEffect | engine/src/state.rs:864-892 | a slot has the effect last assigned to it |
| EngineWrites.LastParam | engine/src/state.rs:893-902 | a parameter has its last value while the effect stays in the slot |
| EngineWrites.LastWetDry | engine/src/state.rs:903-911 | the mix is at its last setting, cut to 0 .. 1 |
| EngineWrites.LastEnable | engine/src/state.rs:912-924 | a slot is on or off as last switched |
| EngineWrites.LastLfo | engine/src/state.rs:942-964 | the LFO is the one last attached, with depth cut to 0 .. 1 and target cut to the effect's last parameter: 3, 3, 3 and 2 of them |
| EngineWrites.NoLfo | engine/src/state.rs:965-969 | once cleared a slot has no LFO until the next is attached |
| EngineWrites.SwapExchanges | engine/src/state.rs:925-941 | swapping exchanges two slots, numbers past the third counting as the third, and swapping again restores the state |
| EngineWrites.PastLastSlot | engine/src/state.rs:893-1006 | past the third slot no other effect event does anything either |
| EngineWrites.LastCrossfader | engine/src/state.rs:1019-1021 | the crossfader is where it was last moved to, cut to 0 .. 1 |
| EngineWrites.LastCurve | engine/src/state.rs:1022-1024 | the crossfader curve is the last one chosen |
| EngineWrites.LastSession | engine/src/state.rs:744-745 | a session runs from its start to its end |
| EngineWrites.LastMasterBpm | engine/src/state.rs:1132-1138 | the session tempo is the last positive one asked for |
| EngineWrites.LastLimiter | engine/src/state.rs:1193-1195 | the limiter is on or off as last switched |
| EngineWrites.LastLimiterThreshold | engine/src/state.rs:1196-1199 | the limiter threshold is the last one asked for, cut to -24 .. 0 dB |
| EngineWrites.LastSidechainSwitch | engine/src/state.rs:1139-1141 | ducking is on or off as last switched |
| EngineWrites.LastSidechainParams | engine/src/state.rs:1142-1179 | the ducking parameters an event gives are cut to their ranges, the others keep what they were, until the next such event |
| LoopSnap.ClampLoopBarsNearest | engine/src/state.rs:1224-1248 | of 1, 2, 4, 8 and 16 the preset is a nearest one, and the smallest of the nearest |
| LoopSnap.ScanFindsFirst | engine/src/state.rs:1280-1283 | the scan finds the first analysed downbeat not before the playhead, or there is none |
| LoopSnap.BarsToIsLeast | engine/src/state.rs:1284-1297 | the extrapolated bar line is the least one not before the playhead |
| LoopSnap.SnapPoint | engine/src/state.rs:1274-1297 | the snap point is the first analysed downbeat, else the anchor, else the millisecond nearest to the first anchor + n * 4 * period not before the playhead; and never before the playhead |
| LoopSnap.SnapMonotone | engine/src/state.rs:1274-1297 | it never moves back as the playhead moves forward, sorted grid or not |
| LoopSnap.SetLoopBarsArms | engine/src/state.rs:1071-1105 | the event arms a loop from the snap point with the musical length to half a millisecond, and does nothing without a grid |
| LoopSnap.BarLoopArmsIffLoaded | engine/src/state.rs:1071-1105 | on reachable states it arms exactly on loaded decks |
| OneShotSweeper.UndisturbedRun | engine/src/state.rs:912-1006 | no event but enable, assign, clear, swap, re-fire of the slot or unload of the deck moves a one-shot |
| OneShotSweeper.DisturbsIffMoves | engine/src/state.rs:857-1006 | and each of those can: they are exactly the events that change some slot's timer |
| OneShotSweeper.SweepSnapshot | engine/src/oneshot_sweeper.rs:91-122 | the nested loops emit one disengage per expired slot that the channel accepts, and count them |
| OneShotSweeper.FoldIsSwept | engine/src/oneshot_sweeper.rs:91-122 | folding a sweep back restores exactly those slots to their earlier flag and changes nothing else |
| OneShotSweeper.RefusedStayDue | engine/src/oneshot_sweeper.rs:111-118 | afterwards exactly the refused slots are still due |
| OneShotSweeper.RetrySendsRefused | engine/src/oneshot_sweeper.rs:111-118 | the next pass sends exactly the events that were refused |
| OneShotSweeper.SecondSweepIsIdle | engine/src/oneshot_sweeper.rs:91-122 | after a fully accepted sweep a second one emits and changes nothing |
| OneShotSweeper.FireSetsTimer | engine/src/state.rs:970-1006 | firing engages the slot and records the earlier flag, the beat period and an end b = 1..64 beats ahead: within b microseconds below ts + b * 1000 * period, or exactly ts + 500000 * b without a grid, unless that overflows |
| OneShotSweeper.DurationIsBeats | engine/src/state.rs:990-996 | it lasts its beats, cut to 1..64, at the deck's tempo, short by under a microsecond a beat |
| OneShotSweeper.OneShotLifecycle | engine/src/oneshot_sweeper.rs:91-122 | an undisturbed one-shot stays engaged until its end, b beats after it fired, and is then swept back to the flag it found |
| OneShotSweeper.OverlapForgetsFlag | engine/src/state.rs:997-1003 | re-fired in flight, the slot ends up on: the first flag comes back if and only if it was on |
| OneShotSweeper.SweepToleratesDelay | engine/src/oneshot_sweeper.rs:126-133 | a disengage event that lands after other, undisturbing events still does what a sweep of that later state would |
| OneShotSweeper.LateSweepCutsRefire | engine/src/oneshot_sweeper.rs:126-133 | one that lands after a re-fire cuts the new one-shot short, and switches the slot off if and only if it was off before the expired one |
| Playlist.PlaylistQueue.Enqueue | copilot/playlist.py:90-123 | appends, or refuses an empty id and changes nothing |
| Playlist.PlaylistQueue.Dequeue | copilot/playlist.py:125-161 | drops the dangling prefix and pops the head behind it; terminates by table size |
| Playlist.PlaylistQueue.ListQueue | copilot/playlist.py:163-185 | the queue in order with dense positions |
| Playlist.PlaylistQueue.Reorder | copilot/playlist.py:187-246 | moves the first occurrence to position p, to 0 for a negative one and to n - 1 past the end, or refuses an absent track and changes nothing |
| Playlist.PlaylistQueue.Remove | copilot/playlist.py:248-262 | removes every occurrence, or refuses an absent track and changes nothing |
| Playlist.PlaylistQueue.Clear | copilot/playlist.py:264-267 | empties the queue |
| Playlist.PlaylistQueue.Count | copilot/playlist.py:269-273 | the number of rows is the length of the sequence |
| Playlist.PlaylistQueue.Renumber | copilot/playlist.py:279-297 | positions become 0 .. n-1 with order and rows unchanged |
| Playlist.DropDanglingMeaning | copilot/playlist.py:140-161 | what is dropped is the longest prefix of unknown tracks |
| Playlist.ClampIndex | copilot/playlist.py:213-215 | a position in 0 .. n-1 is itself, a negative one is 0, one past the end is n-1 |
| Playlist.MovedAt | copilot/playlist.py:217-224 | what stands at each place after a move: the moved entry at the target, its neighbour in between, the same entry elsewhere |
| Playlist.MovedBack | copilot/playlist.py:217-224 | moving back undoes a move |
| Playlist.RelocatedMeaning | copilot/playlist.py:217-244 | a reordered queue has those tracks in those places, each stamped like the last entry of its track before |
| Playlist.LastStampMeaning | copilot/playlist.py:231-231 | a track has a stamp if and only if it is queued, and it is its last entry's |
| Playlist.WithoutMeaning | copilot/playlist.py:255-257 | no entry of the track is left and every other entry is there as often as before |
| Playlist.WithoutKeepsOrder | copilot/playlist.py:255-262 | each entry that stays is at its new place, and of two that stay the earlier comes first |
| Playlist.ReorderKeepsStamps | copilot/playlist.py:225-244 | `added_at` survives a move if and only if every entry carries the stamp of its track's last entry |
| Playlist.SelectByPosition | copilot/playlist.py:171-174 | reading by position yields the one order of the table |
| Playlist.StampsByTrack | copilot/playlist.py:231-231 | the stamp dict keeps the last entry of a track |
| AutoMix.EligibleMeaning | copilot/auto_mix.py:268-300 | the window opens 30 s before the end and the countdown is the floor of the seconds left, never negative |
| AutoMix.ActiveDeckMeaning | copilot/auto_mix.py:490-506 | a deck playing alone is the active one; of two, A if and only if the crossfader is below 0.5; with none playing there is none |
| AutoMix.QueueComesFirst | copilot/auto_mix.py:314-364 | with entries queued the ranker is never asked; the queue is consumed exactly when a deck plays a loaded track, alone or on its side of the crossfader, up to its first known entry; an empty queue leaves the answer to the ranker |
| AutoMix.TickLaunchesIff | copilot/auto_mix.py:244-262 | a tick launches one plan for a deck, the proposed one and for its loaded track, if and only if the deck is idle, free, in its last 30 s and has a proposal |
| AutoMix.QueueHandedOn | copilot/auto_mix.py:213-262 | deck A's turn takes from the queue before deck B's, and only when deck A is due |
| AutoMix.TickShows | copilot/auto_mix.py:213-243 | the countdown is the whole seconds left inside the window and none outside; a finished deck is idle again once it holds another track |
| AutoMix.LaunchedWhenDue | copilot/auto_mix.py:244-262 | every task of every run was launched by a tick that found its deck due, for the track loaded and with the plan proposed then |
| AutoMix.QueueIsFifo | copilot/auto_mix.py:343-357 | on every run the queue is the last of what was put on it, in that order |
| AutoMix.PlanCompletes | copilot/auto_mix.py:425-432 | a task nobody cancels whose submissions succeed sends the rest of its plan in order and leaves its deck done and off the books |
| AutoMix.FailureAndCancelEnd | copilot/auto_mix.py:433-448 | a failed submission leaves its deck idle, a cancelled task ends at its next step, and neither submits more |
| AutoMix.PlanOrder | copilot/auto_mix.py:427-432 | on every run a task's submissions are a prefix of its plan, in order, without repeats, all of it once completed |
| AutoMix.StepKeepsInv | copilot/auto_mix.py:157-262 | every step keeps the books: one live task per deck, recorded as in flight |
| AutoMix.OneInFlight | copilot/auto_mix.py:205-262 | each deck has at most one plan in flight |
| AutoMix.OneLaunchPerTrack | copilot/auto_mix.py:221-262 | a deck launches again only after the plan before failed, the deck was switched off, or a tick found it holding another track |
| AutoMix.CancelledByOff | copilot/auto_mix.py:157-184 | a cancelled task was cancelled by switching its own deck off |
| AutoMix.OffSilencesIffOnBooks | copilot/auto_mix.py:157-184 | switching a deck off stops every task of it if and only if no live task is off the books |
| AutoMix.OffIsFinalIff | copilot/auto_mix.py:157-184 | on every run whatever, switching off ends the deck's submissions until it is switched on if and only if no live task with events left is off the books |
| AutoMix.BooksLostIff | copilot/auto_mix.py:205-262 | books in order are lost in exactly two ways: a cancelled task unwinding, or a tick launching, beside a live task |
| AutoMix.UnwindingLetsEscape | copilot/auto_mix.py:447-448 | after such an unwinding the live task goes on submitting through a switch-off |
| AutoMix.SecondPlanIffTrackChanged | copilot/auto_mix.py:221-262 | a plan being submitted gets a second one beside it, at the next eligible tick with a proposal, if and only if its deck was found holding another track |
| AutoMix.AssumedKeepsBooks | copilot/auto_mix.py:157-262 | under the assumptions the books are always in order |
| AutoMix.NoSubmissionAfterOff | copilot/auto_mix.py:157-184 | so there no submission of the deck starts after `set_auto_mix(False)` until it is switched on again |
| AutoMix.EarlyRearmEscapesOff | copilot/auto_mix.py:447-448 | a concrete run in which re-arming too early lets a plan escape being switched off |
| AutoMix.AutoMixController.Switch | copilot/auto_mix.py:157-184 | `set_auto_mix` is the machine's step: switching a deck off with a plan in flight forgets it and leaves the deck idle |
| AutoMix.AutoMixController.TickBoth | copilot/auto_mix.py:205-262 | `tick` over both decks is the machine's step |
| AutoMix.AutoMixController.Resume | copilot/auto_mix.py:416-448 | `_execute` between two awaits, cancellation and failure included, is the machine's step |
| EngineClient.StepKeepsInv | copilot/engine_client.py:168-222 | every step keeps the pairing invariant |
| EngineClient.IdsNeverReused | copilot/engine_client.py:267-270 | calls never share an id, and none gets the handshake's |
| EngineClient.PendingIsInFlight | copilot/engine_client.py:189-203 | the dict holds exactly the calls in flight since the last close, each with an id of its own from 2 up, and nobody waits for authentication |
| EngineClient.EmptyAfterClose | copilot/engine_client.py:205-222 | after a close the dict stays empty until a handshake succeeds again |
| EngineClient.NobodyHangsAfterClose | copilot/engine_client.py:218-222 | every call a close finds in flight has an outcome waiting |
| EngineClient.CompletesOnce | copilot/engine_client.py:197-203 | a finished call stays as it ended, whatever happens later |
| EngineClient.AliasFree | copilot/engine_client.py:344-351 | an integer id looks up itself, True and False look up 1 and 0; so an id can only be matched by itself if and only if it is not 0 or 1 |
| EngineClient.RepliedByOwnResponse | copilot/engine_client.py:344-363 | a result comes from a frame with the call's own id, that result and no error; an exception from one with that error object, whatever its result; either after the call was made |
| EngineClient.ReturnedByOwnResponse | copilot/engine_client.py:168-203 | so does what a caller returns with |
| EngineClient.ResponseSettlesOne | copilot/engine_client.py:344-363 | a response settles the one waiting call whose id it carries, an error object with that error, else a result with that value, and nothing else |
| EngineClient.OtherResponsesIgnored | copilot/engine_client.py:344-363 | late, unknown and repeated responses change nothing; only an error that is no object, reaching a waiting call, ends the reader loop |
| EngineClient.FailureHasCause | copilot/engine_client.py:182-222 | every other outcome has its cause in the run: the call's own timeout, cancellation or failed send, a close, or no connection when it was made |
| EngineClient.InterruptedRaises | copilot/engine_client.py:195-203 | an expired or cancelled call raises that, even when its response arrives before it runs again, and its id leaves the dict |
| EngineClient.HandshakeConnects | copilot/engine_client.py:130-152 | a successful handshake connects the client, starts its reader and takes one id |
| EngineClient.AnsweredCallReturns | copilot/engine_client.py:182-203 | on a connected, reading client a call that is answered comes back with that result or that error, and its id leaves the dict |
| EngineClient.DeafUntilReconnect | copilot/engine_client.py:311-342 | once the reader loop has ended no call gets a reply until a handshake succeeds again |
| EngineClient.EngineClient.BeginCall | copilot/engine_client.py:182-197 | `call` up to its first suspension is the machine's step: unconnected it fails, else it is registered under the next id |
| EngineClient.EngineClient.Deliver | copilot/engine_client.py:344-363 | `_handle_response` is the machine's step: an error object fails the waiting call of that id, else a result settles it, and no other call changes; it raises exactly when it ends the reader loop |
| EngineClient.EngineClient.Resume | copilot/engine_client.py:197-203 | waking up raises or returns the recorded outcome and drops the id |
| EngineClient.EngineClient.AClose | copilot/engine_client.py:205-222 | the loop fails every unset pending future and then forgets them all |
| Waveform.EdgesCover | copilot/waveform.py:122-122 | the edges run from 0 to the sample count |
| Waveform.EdgeIsFloor | copilot/waveform.py:118-122 | edge i is i * n / t rounded down: t * edge <= i * n < t * edge + t |
| Waveform.InBucketMeaning | copilot/waveform.py:118-127 | sample k is in bucket i exactly when i * n < t * (k + 1) <= (i + 1) * n |
| Waveform.BucketsEven | copilot/waveform.py:118-127 | no bucket is a whole sample off its share n / t |
| Waveform.BucketNonEmpty | copilot/waveform.py:109-116 | after padding no bucket is empty |
| Waveform.BucketsPartition | copilot/waveform.py:118-127 | every sample is in exactly one bucket |
| Waveform.QuantizeError | copilot/waveform.py:141-154 | inside -1 .. 1 the code is within half of 127 times the sample, outside it is 127 or -127 |
| Waveform.QuantizeTies | copilot/waveform.py:149-154 | a sample exactly between two codes takes the even one |
| Waveform.ClampTarget | copilot/waveform.py:107-107 | the bucket count is cut to 16 .. 16384 |
| Waveform.QuantizeMonotone | copilot/waveform.py:141-154 | quantisation is monotone |
| Waveform.QuantizeSymmetric | copilot/waveform.py:141-154 | silence is 0, a flipped sign flips the code |
| Waveform.ByteRoundTrip | copilot/waveform.py:136-137 | masking to a byte loses nothing if and only if the value fits in 8 signed bits; a negative one is stored 256 higher |
| Waveform.PeaksFromSamples | copilot/waveform.py:93-138 | fails exactly on no samples; otherwise `expected_bytes` bytes, each pair coding the least and greatest sample of its bucket |
| Waveform.PeaksEnclose | copilot/waveform.py:125-138 | every sample's code lies between the stored minimum and maximum of its bucket, and both of those are codes of samples of that bucket |

## Left out

- AutoMix.AutoMixController.TickBoth: the notifier never suspends, so a tick is one step; a handler that awaits would let other tasks in between.
- AutoMix.QueueComesFirst: how a picked track becomes a list of events, its score and its shape are a parameter, as is the ranker's answer.
- EngineClient.EngineClient.Deliver: a frame that is no JSON object ends the reader loop before it gets here; that is the step `ReaderStopped`.
- EngineClient.PendingIsInFlight: JSON parsing, notifications and the reconnect backoff are not modelled; a reconnect is any later successful handshake.
- Playlist.PlaylistQueue.Reorder: the rejection of a non-integer position is left to the type of the parameter.
- Waveform.EdgesCover: the edges are exact; the rounding of numpy's `linspace` in double precision is not modelled.
- HttpSource.CachedIffRecent: the 16-page bound is for range servers only, since a 200 answer caches the whole file and `open` never trims; a 206 answer with an unknown total is not modelled.
- DecodeRing.UnderrunsCountPaddedReads: that left samples land on even places of the buffer is not claimed, because a read that runs dry after an odd number of samples shifts left and right.
- OneShotSweeper.SweepSnapshot: the polling thread, the wall clock and event stamping are parameters.
- SyncDaemon.Daemon.LoopOnce: what a tick does is its counters; a restart after a timed-out join is not modelled.
- CloudStore.InMemorySyncClient.UpsertTrack: the remote modelled is the in-memory one; Supabase's conflict clause in SQL is not part of this model.
- `set_hot_cues` is not a step of the sync machine, because it neither stamps nor queues; `delete_track` of the remote is left out as nothing calls it during a sync.
- Event ids, event sources, stem paths and MIDI names are not part of the reducer's model: the reducer never reads them.
- NaN and infinite inputs, and the rounding of f32 and f64 arithmetic.
- Codec, resampler, mixer, limiter and effect signal processing, and the failure-reporting channel of the decoder.
- Network, file and process input and output, SQL text and schema migrations, telemetry, logging, command-line and RPC parameter parsing.
- Key matching, track ranking, proposer hysteresis, loudness and presets.
