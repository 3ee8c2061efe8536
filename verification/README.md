# What Harmony's core promises, proved

A Dafny 4.11 model of the parts of the desktop core and of the server whose
promises hold over whole runs, or over every input, rather than over one call:

- **Custody** (`WaveFormats`, `SavedFormats`, `Custody`, `CustodyRuns`): on Windows the
  client changes the formats of output endpoints it does not own and keeps what they
  were in a file.
- **AdaptiveRate**: the rate the client forces on the system, and the marker file that
  lets the next start undo it.
- **Processing, HandOff, HandOffRuns**: the Processing Profile and its settings file,
  and the hand-off of the listener's attenuation from mpv to a device and back.
- **Calendar, Timestamps, StoredTimes, InstantTexts**: days to dates, instants to RFC 3339
  and to SQLite's form, and the normalisers of what the database holds.
- **QueueEvents, QueueStream, QueueServer**: the incremental decoder of the server's queue
  events, the client that reconnects, and what the repository's own server sends it.
- **HlsRewrite, HlsLaws**: the media proxy's rewrite of HLS playlists.
- **RouteWords, Scrubber, ScrubWords, ScrubKinds, ScrubFixedPoint, ScrubMasks**: the scrubber of
  text on its way to the error tracker.
- **QueueOrder**: the playback order, its shuffle, and moving along it.
- **Migrate, MigrateFiles, MigrateUp**: reading goose migrations and applying them.
- **Cancellation**: cancelling the renderer's requests.
- **LoadTiming**: timing how long a source takes to start.

`Outcomes` and `Texts` hold what several of them share. `dafny verify dfyconfig.toml`
checks everything.

## How failures and kills are modelled

A call into a device, a file, a database or mpv is one step. It answers `Ok`, `Err`, or
`Killed`: the process dies there. Which one is arbitrary, and where the source says that a
failing call may still have taken effect, so does the step. `Killed` propagates like an
error, so a postcondition that does not ask for `Ok` holds at every point where the process
can die. A ghost counter of disturbances counts the calls that did not simply do what they
were asked; a promise about an undisturbed operation speaks of one whose every call
answered. Narrower counters, kept by the same calls, count what a protocol does not survive
(`Audio.misfires`, `Audio.overwritten`, `Machine.unreadable`); a promise about a run names
the ones it excludes. Runs are loops over an arbitrary sequence of events, restarts and kills included.

`hide` statements in proofs keep definitions a proof does not need from the solver. They
prove nothing.

## What the proofs found

- `Controller.Disable` of Adaptive System Rate can answer `Ok` and leave the marker: exactly
  when it was not enabled and an earlier `enable` failed with the marker already written
  (`AdaptiveRate.Controller.Disable`).
- When the device took the volume but mpv did not go to full volume, the return still
  multiplies, so the listener comes back to the square of the level: the level survives
  exactly when mpv followed (`HandOffRuns.RefusedHandOff`).
- A hand-off over a record kept for an absent output overwrites it, and that output then
  misses its decibels for good (`HandOffRuns.HandOffAndBack`).
- Giving up a saved-formats file keeps custody exactly when every endpoint is at its original
  (`Custody.GivingUpTheFile`).
- `scrub_text` is a fixed point of itself exactly when no URL in the text has a `/` or `\`
  before its scheme; `/://` is such a text, and no shorter one is
  (`ScrubFixedPoint.ScrubIsIdempotent`, `ScrubFixedPoint.NotIdempotent`,
  `ScrubFixedPoint.ShortTextsAreStable`).
- A further `up` applies nothing exactly when every version is positive
  (`MigrateUp.NothingPending`).
- A cancel reaches the request with its id that is open when the cancel's task runs, so one
  that runs after its own request finished reaches a later request that uses the id again
  (`Cancellation.Core.RunCancel`).
- A request whose arguments cannot be read is answered without giving up its registration.
  Its id stays registered, a cancel for the id then fires the token, and the next request with
  the id is answered as cancelled though no cancel found it open. That is exactly when a
  request starts cancelled (`Cancellation.StartsCancelled`, `Cancellation.CancelIsInherited`).
- The client's deliveries are one gap-free, duplicate-free stretch of the log exactly when each
  connection that delivers goes on at the next event, which a server that resumes after
  `Last-Event-ID` gives it (`QueueStream.OneStretchIffAllJoin`, `QueueStream.ResumedIsOneStretch`).
  The repository's own server does not: it answers every reconnect with the current state, and
  one connection may send an event twice, leave events out, or go back to an older one
  (`QueueServer.SendsTwice`, `QueueServer.LeavesGap`, `QueueServer.GoesBack`). What it does give
  is that no reconnect goes back, and that a connection does not either while every mutation
  publishes what is current (`QueueServer.Deliveries`, `QueueServer.RisesIffNoneOvertaken`).

## Model

| member | source | states |
|---|---|---|
| WaveFormats.WaveFormat.WithSampleRate | desktop/core/src/policy_config.rs:100-114 | the changed format keeps its length and its other fields, has the rate, and a byte rate that follows from it |
| WaveFormats.RatesDoNotAccumulate | desktop/core/src/policy_config.rs:100-114 | changing a rate twice is changing it once to the last one |
| WaveFormats.Layout | desktop/core/src/policy_config.rs:61-114 | byte by byte: a format is whole exactly with 18 bytes and the extension bytes 16 and 17 announce; a rate goes to bytes 4 to 7, lowest first, and the byte rate that follows from bytes 12 and 13 to bytes 8 to 11 |
| WaveFormats.LittleEndianInjective | desktop/core/src/policy_config.rs:87-114 | a header field reads back from the bytes it is written as |
| WaveFormats.FormatsRoundTripThroughHex | desktop/core/src/policy_config.rs:116-131 | a format that is whole reads back from its hex text |
| WaveFormats.HexDigits | desktop/core/src/policy_config.rs:116-131 | sixteen digits in either case are read, and nothing else |
| WaveFormats.SignIsReadOver | desktop/core/src/policy_config.rs:124-127 | a `+` in front of a digit is read over, as the standard library does |
| SavedFormats.ForcedRateKeepsRest | desktop/core/src/policy_config.rs:407-408 | of the device format and of the mix format a forced rate changes bytes 4 to 11, each from its own original, and nothing else |
| SavedFormats.OnlyTheLastRateCounts | desktop/core/src/policy_config.rs:407-408 | both formats of an endpoint forced twice are those of the last rate, and the device format has that rate |
| SavedFormats.SavedOriginalsReadBack | desktop/core/src/policy_config.rs:150-166 | originals written as saved formats read back as themselves |
| SavedFormats.StoredOriginalsReadBack | desktop/core/src/policy_config.rs:168-175 | the file `store` writes loads back as what was stored, exactly when every format is whole |
| SavedFormats.SingleEntryLoads | desktop/core/src/policy_config.rs:168-175 | the single entry the first builds wrote loads as a list of one, exactly when its formats are whole |
| SavedFormats.OneBrokenEntry | desktop/core/src/policy_config.rs:150-175 | nothing is loaded exactly when some entry cannot be read |
| Custody.GivingUpTheFile | desktop/core/src/policy_config.rs:363-375 | setting the file aside keeps custody if and only if every endpoint has its original formats |
| Custody.Machine.WriteFormats | desktop/core/src/policy_config.rs:208-226 | a format write may change the endpoint to anything, answer or not, and changes no other |
| Custody.SetFormatsIfChanged | desktop/core/src/policy_config.rs:431-465 | success means the endpoint has the formats; one that has them is not written |
| Custody.RateAdapter.Load | desktop/core/src/policy_config.rs:282-295 | the entries of the file, none without a file |
| Custody.RateAdapter.Store | desktop/core/src/policy_config.rs:298-317 | the file holds exactly these entries and is removed for none, or is as it was |
| Custody.RateAdapter.RestoreOne | desktop/core/src/policy_config.rs:331-348 | an absent endpoint is left alone, a present one gets its formats or an error, and no other endpoint changes |
| Custody.RateAdapter.PutBackEach | desktop/core/src/policy_config.rs:329-349 | after the loop exactly the entries not pending are at their originals; only their endpoints were touched |
| Custody.RateAdapter.RestorePresent | desktop/core/src/policy_config.rs:323-357 | custody at every step; entries leave the file only with their endpoint at its original, `keep` never does; after success every entry is back at its formats or its endpoint was left alone, and undisturbed only the absent ones stay |
| Custody.ReleasingKeepsGuard | desktop/core/src/policy_config.rs:350-352 | dropping entries whose endpoints are back loses no original |
| Custody.TakingKeepsGuard | desktop/core/src/policy_config.rs:396-413 | an endpoint keeps its one entry or gets the one it lacks, with its original formats |
| Custody.ChangingGuardedEndpoint | desktop/core/src/policy_config.rs:412-423 | an endpoint with an entry may take any formats, even those of a failed write |
| Custody.OthersAndOwnSplit | desktop/core/src/policy_config.rs:389-392 | the partition splits the entries, at most one being the endpoint's own |
| Custody.RateAdapter.RestoreSaved | desktop/core/src/policy_config.rs:362-383 | undisturbed, every saved endpoint that is present is at its original and the file holds exactly the absent ones; custody ends exactly when a file that could not be read was set aside with an endpoint away from its original |
| Custody.RateAdapter.Secure | desktop/core/src/policy_config.rs:386-413 | before the endpoint changes its original is in the file and the other saved endpoints are back |
| Custody.RateAdapter.Play | desktop/core/src/policy_config.rs:414-423 | the endpoint gets the changed formats where the hardware plays them and its original otherwise |
| Custody.RateAdapter.Force | desktop/core/src/policy_config.rs:385-424 | custody at every step; the default endpoint is changed from its original, never from an earlier change, with its original in the file |
| CustodyRuns.ForceAgain | desktop/core/src/policy_config.rs:427-440 | an undisturbed force leaves the default endpoint playing the change and the others at rest; from there the same force writes no format |
| CustodyRuns.RestoreEverything | desktop/core/src/policy_config.rs:359-383 | with every saved endpoint present, a restore whose calls answer leaves every endpoint at its original and no file |
| CustodyRuns.ForceRate | desktop/core/src/policy_config.rs:385-424 | undisturbed, the default endpoint plays both its original formats at the rate, each with only its rate changed, if and only if the hardware supports that |
| CustodyRuns.Run | desktop/core/src/policy_config.rs:508-543 | at every moment of every run of forces, clears, restarts, kills, failing writes, absences and default changes each endpoint has its original or exactly one entry holding it, unless the file could not be read; an original changes only where the user sets the formats of an endpoint without an entry. An event whose calls all answer does its whole work: a forced rate is what the default endpoint plays, if it can, and clearing or a start puts every present endpoint back and keeps the entries of the others |
| AdaptiveRate.RateSystem.SetForcedRate | desktop/core/src/adaptive_system_rate.rs:153-166 | a rate set that fails may still have taken effect |
| AdaptiveRate.Controller.Enable | desktop/core/src/adaptive_system_rate.rs:289-293 | enabled only with the marker written |
| AdaptiveRate.Controller.ApplySourceSampleRate | desktop/core/src/adaptive_system_rate.rs:295-303 | only while enabled a rate above 0 is forced, and 0 or none clears it; the controller remembers only what was set |
| AdaptiveRate.Controller.Disable | desktop/core/src/adaptive_system_rate.rs:305-313 | `Ok` means no forced rate, and no marker if and only if it was enabled or there was none |
| AdaptiveRate.Controller.ResetForRecovery | desktop/core/src/adaptive_system_rate.rs:315-326 | `Ok` means no forced rate; it stays enabled |
| AdaptiveRate.Controller.Drop | desktop/core/src/adaptive_system_rate.rs:329-342 | teardown leaves no rate without a marker, and undisturbed neither |
| AdaptiveRate.RecoverStartup | desktop/core/src/adaptive_system_rate.rs:268-277 | a start that succeeds leaves neither a forced rate nor a marker |
| AdaptiveRate.Run | desktop/core/src/adaptive_system_rate.rs:268-342 | over every run with failures and kills a forced rate implies the marker, and the next start undoes both or, only if a call failed, does not start |
| Processing.Clamp | desktop/core/src/processing.rs:272-274 | values come into their range at its nearer end, a value in range stays, one that is not finite is 0 |
| Processing.PresetGains | desktop/core/src/processing.rs:528-535 | every preset's ten gains are within 12 dB, Flat's are zero, BassBoost never rises from band to band and TrebleBoost never falls, and neither cuts |
| Processing.FlatEqualizer | desktop/core/src/processing.rs:520-526 | in a sound state the equalizer is off exactly when it is the flat one |
| Processing.ChangesKeepSound | desktop/core/src/processing.rs:261-364 | every change keeps: Direct processes nothing, the equalizer is off if and only if Flat with zero gains, gains within 12 dB, volume in 0..1 |
| Processing.LeavingDirectIsNoticed | desktop/core/src/processing.rs:426-433 | a change leaves Direct exactly when something is processed from then on, and only then leaves a notice |
| Processing.OneValueChanges | desktop/core/src/processing.rs:272-364 | a volume or a band gets the value asked for, clamped, and every other band and setting stays |
| Processing.OneChoiceChanges | desktop/core/src/processing.rs:261-343 | the ReplayGain mode, preset or profile asked for is the one set; a mode other than Off is preferred from then on; Direct clears what it must and keeps the preference |
| Processing.VolumeOfRoute | desktop/core/src/processing.rs:181-186 | two routes share a remembered volume if and only if they are the same ALSA device or neither is one |
| Processing.Controller.Commit | desktop/core/src/processing.rs:376-385 | memory and file both become the candidate, or neither changes |
| Processing.Controller.SetSoftwareVolume | desktop/core/src/processing.rs:272-297 | the route's remembered volume changes with the volume, and not at all when saving fails |
| Processing.TwoDevices | desktop/core/src/processing.rs:204-297 | a volume set on one ALSA device is still remembered there after another was set on a second one |
| Processing.Controller.SetEqualizerGain | desktop/core/src/processing.rs:345-364 | a band that does not exist is an error; any other gain comes clamped into the custom equalizer |
| Processing.Controller.RestoreSnapshot | desktop/core/src/processing.rs:224-228 | memory becomes the snapshot whether or not it is saved |
| Processing.Make | desktop/core/src/processing.rs:238-411 | a change is made and saved, or nothing has changed anywhere |
| Processing.Run | desktop/core/src/processing.rs:188-411 | from the defaults every run of changes, output choices, reported states, failing saves, kills and restarts ends sound, with the file holding what is in memory |
| HandOff.Audio.ChangeRoute | desktop/core/src/device_volume.rs:36-58 | a device answers the change it made, which may be smaller than asked |
| HandOff.Desk.UpdateProcessing | desktop/core/src/lib.rs:981-1005 | the change is saved and applied, and memory and file are what mpv reports, or memory is as it was before |
| HandOff.Desk.UndoPartial | desktop/core/src/lib.rs:666-671 | a partial hand-off goes back and the outputs are as before it, or the books are marked lost |
| HandOff.Desk.LowerDevice | desktop/core/src/lib.rs:653-672 | what the device answers is kept if and only if it is all of it within a hundredth of a decibel; else, without a misfire, the outputs are as they were; what it took is owed to the output it was taken from |
| HandOff.Desk.Remember | desktop/core/src/lib.rs:672-691 | process and record know of the hand-off whenever no call misfires; an earlier debt is overwritten, and that is counted |
| HandOff.Desk.Follow | desktop/core/src/lib.rs:692-709 | mpv is at full volume and the device's level is the factor; or mpv refused, and the listener hears the square of the level; or the process died before mpv followed, which is counted |
| HandOff.Desk.HandOffVolume | desktop/core/src/lib.rs:647-709 | what the device carries is the step for the volume within a hundredth of a decibel, or the outputs are as they were; the decibels missing from the output are those owed at every step; whatever mpv and the settings do, the record holds the debt unless a call misfires or a record is overwritten; undisturbed the hand-off is whole, and nothing happens at volume 0 or 1 |
| HandOff.Desk.ReturnLevel | desktop/core/src/lib.rs:722-735 | mpv gets its current volume times what the device carried, at worst only in the settings; where not even that can be saved, it is counted |
| HandOff.Desk.ReturnDecibels | desktop/core/src/lib.rs:736-745 | the named output gets its decibels back even when another is the default, and nothing is owed then |
| HandOff.Desk.CloseRecord | desktop/core/src/lib.rs:746-767 | the record is gone, or kept without the listener's level, or as it was |
| HandOff.Desk.ReturnVolume | desktop/core/src/lib.rs:714-768 | what is owed is given back or kept in the record, wherever it is killed unless a call misfires, and the level multiplied in exactly once |
| HandOff.Desk.Recover | desktop/core/src/lib.rs:897-934 | a start whose calls answer leaves no record and nothing owed, whatever earlier starts managed; one whose calls fail keeps the debt booked |
| HandOff.Desk.RecoverLevel | desktop/core/src/lib.rs:909-917 | the listener's level is put back unless the record says it was |
| HandOff.Desk.RetryDevice | desktop/core/src/lib.rs:918-933 | a device retry that fails keeps the record and leaves mpv alone next time |
| HandOff.Desk.Reboot | desktop/core/src/lib.rs:1400-1408 | a new process knows only the record and the settings file |
| HandOff.ReturnedVolume | desktop/core/src/lib.rs:936-941 | never louder than the slider nor than the entry volume |
| HandOffRuns.ThereAndBack | desktop/core/src/lib.rs:690-699 | full volume through Direct loses no profile, ReplayGain or equalizer that coming back would need |
| HandOffRuns.FullVolumeIs | desktop/core/src/lib.rs:692-699 | full volume goes to Direct exactly when only the volume was processed, and keeps ReplayGain and equalizer otherwise |
| HandOffRuns.ScaledIsBelow | desktop/core/src/lib.rs:936-941 | slider times entry volume is at most either |
| HandOffRuns.HandOffAndBack | desktop/core/src/lib.rs:647-768 | undisturbed, hand-off, slider and return give back the profile at the slider's share of the entry volume, the outputs where they were, and no record |
| HandOffRuns.RefusedHandOff | desktop/core/src/lib.rs:699-709 | returning a hand-off that mpv did not follow squares the volume: the level comes back if and only if mpv followed |
| HandOffRuns.Run | desktop/core/src/lib.rs:647-934 | over every run with kills, restarts, absences, refusals and other defaults the decibels missing are the one debt in the record, which is the step for its volume within a hundredth of a decibel, and the listener's level is the volume times what the record says, unless one of the counted mishaps happened; a run whose calls all answer has none. The outputs' own levels move by others' doing alone, and the listener's level is told from event to event: it becomes what they choose, or its square when mpv refuses a hand-off, and stays otherwise |
| HandOffRuns.LevelStays | desktop/core/src/lib.rs:897-934 | while the listener chooses nothing and nothing is handed off the level they are owed does not move |
| HandOffRuns.Restart | desktop/core/src/lib.rs:897-934 | from wherever a run left it, a start whose own calls answer puts every output where everyone else left it, mpv at the level last chosen, and leaves no record; one whose calls fail keeps the debt for the next |
| Calendar.CivilIsExact | server/src/gojson.rs:66-93 | for every second, negative ones too, the fields are in range and count back to that second |
| Calendar.DateIsExact | server/src/gojson.rs:70-84 | the date exists in the calendar and is that many days from 1970-01-01 |
| Calendar.DateOfDaysUntil | server/src/gojson.rs:70-84 | every date of the calendar is the date of its day count |
| Calendar.ConsecutiveDays | server/src/gojson.rs:70-84 | the next day's date is the calendar's next date |
| Calendar.YearOfCycle | server/src/gojson.rs:74-76 | the corrections for cycles and centuries find the year the day is in, leap days included |
| Calendar.DaysBeforeMonthIndexCounts | server/src/gojson.rs:77-84 | the month formula counts the days the month lengths do |
| Timestamps.SplitTimeFloors | server/src/gojson.rs:95-108 | splitting rounds down on both sides of 1970 |
| InstantTexts.FractionPrinted | server/src/gojson.rs:110-116 | the digits of a fraction, trailing zeros dropped, still say the nanoseconds |
| InstantTexts.Rfc3339RoundTrip | server/src/gojson.rs:118-127 | section 5.6 of RFC 3339 reads the printed instant back to the nanosecond, years 0 to 9999 |
| InstantTexts.StoredInstant | server/src/gojson.rs:129-182 | for all time, clients see of the stored instant what is printed for it, and storing it again stores the same |
| StoredTimes.TimeIsForClients | server/src/gojson.rs:143-159 | every stored form comes out with `T`, no idle zeros and one zone, UTC as `Z` |
| StoredTimes.StoredAgain | server/src/gojson.rs:163-182 | every stored form comes out in SQLite's form |
| StoredTimes.ZoneSplits | server/src/gojson.rs:184-206 | the zone is found and made canonical whatever its form, and a date's signs are not taken for one |
| StoredTimes.NormalisersAgree | server/src/gojson.rs:143-206 | both normalisers are fixed points of themselves and agree with each other |
| QueueEvents.FramingIsLossless | desktop/core/src/queue_events.rs:35-40 | frames, their blank lines and the tail are the stream |
| QueueEvents.FramesEndAtBlankLines | desktop/core/src/queue_events.rs:35-40 | every frame ends at its leftmost blank line and the tail holds none |
| QueueEvents.FramingContinues | desktop/core/src/queue_events.rs:27-42 | framing the tail and what comes next continues framing the whole |
| QueueEvents.DecodeQueueEvent | desktop/core/src/queue_events.rs:45-75 | the last id and name and the joined data of the lines decide the event |
| QueueEvents.QueueEventDecoder.Push | desktop/core/src/queue_events.rs:28-42 | a chunk that does not fit is refused and forgotten; otherwise the events are those of buffer and chunk framed at once, and the tail stays, at most 64 KiB |
| QueueStream.PushEach | desktop/core/src/queue_events.rs:22-43 | for every split into chunks: events and tail of the whole stream framed at once, failing exactly when a chunk does not fit or a frame does not decode |
| QueueStream.EventFrameDecodes | server/src/modules/playback/handlers.rs:255-264 | the server's frame of a valid event decodes to that event with its id |
| QueueStream.NumberedFrameDecodes | desktop/core/src/queue_events.rs:59-75 | for every number below 2^64 the server's frame of the event with that sequence decodes to it |
| QueueStream.BrokenFrameIsRefused | desktop/core/src/queue_events.rs:64-70 | an event without a revision, without `queue` among what it invalidates, or whose sequence is no 64-bit number is refused |
| QueueStream.NumberOrNot | desktop/core/src/queue_events.rs:64-68 | a sequence is refused exactly when it is empty, a lone `+`, holds a character that is no digit behind that sign, or is 2^64 or more |
| QueueStream.PlusIsReadOver | desktop/core/src/queue_events.rs:66-66 | a sequence may have a `+` in front |
| QueueStream.OtherFramesPass | desktop/core/src/queue_events.rs:60-62 | a frame of another name is no event, whatever it holds |
| QueueStream.CarriageReturnGoes | desktop/core/src/queue_events.rs:51-59 | a line loses the carriage return before its newline |
| QueueStream.KeepAliveIsNoEvent | server/src/modules/playback/handlers.rs:286-286 | the server's keep-alive is no event |
| QueueStream.CutStreamServes | desktop/core/src/queue_events.rs:167-193 | a connection cut anywhere carries a prefix of the server's events |
| QueueStream.Client.Deliver | desktop/core/src/queue_events.rs:175-178 | the last id is that of the last event delivered |
| QueueStream.Client.Consume | desktop/core/src/queue_events.rs:159-194 | one connection delivers exactly what its chunks carry until it is given up or a chunk breaks it; it ends by itself exactly when it is not given up, every chunk fits and every frame decodes, and then every event it carried was delivered |
| QueueStream.Run | desktop/core/src/queue_events.rs:104-157 | for any server and any attempts exactly what the answers carry is delivered, each attempt asking after the last delivery before it |
| QueueStream.DeliveriesAreTaken | desktop/core/src/queue_events.rs:104-157 | the deliveries are, connection by connection, the first of what the server sends |
| QueueStream.ResumedRunIsOneStretch | desktop/core/src/queue_events.rs:104-157 | whatever becomes of the attempts, one gap-free, duplicate-free stretch of the log of a server that resumes is delivered |
| QueueStream.StretchIffConsecutive | desktop/core/src/queue_events.rs:104-157 | events are a stretch of a log with distinct ids if and only if they lie at consecutive places |
| QueueStream.OneStretchIffAllJoin | desktop/core/src/queue_events.rs:104-157 | the deliveries are one gap-free, duplicate-free stretch if and only if every connection that delivers goes on at the next event |
| QueueStream.ResumedIsOneStretch | desktop/core/src/queue_events.rs:133-135 | from a server that resumes just after the last id, any run of reconnects delivers one stretch |
| QueueServer.ConnectionsStartForward | server/src/modules/playback/handlers.rs:268-275 | whatever mutations overlap, each connection starts at or after the newest event at its opening, and so after all that was sent before |
| QueueServer.SentIsOffered | server/src/modules/playback/handlers.rs:277-294 | what a connection sends is some of what is published to it, in order: it never goes back if that does not |
| QueueServer.RisesIffNoneOvertaken | server/src/modules/playback/handlers.rs:277-294 | no connection goes back if and only if no publication that reaches it is older than what was sent before, coalescing or not |
| QueueServer.PromptStreamSendsAll | server/src/modules/playback/handlers.rs:277-294 | a stream that keeps up sends all it is offered, and then goes back if and only if that does |
| QueueServer.FreshNeverGoesBack | server/src/modules/playback/handlers.rs:79-92 | while every mutation publishes what is current no publication is overtaken and no connection goes back |
| QueueServer.Deliveries | server/src/modules/playback/handlers.rs:266-294 | over any reconnects to this server the deliveries go back in the log if and only if those of one connection do, and never while no publication is overtaken |
| QueueServer.GoesBack | server/src/modules/playback/handlers.rs:270-275 | a run whose connection sends event 2 and then event 1 |
| QueueServer.SendsTwice | server/src/modules/playback/handlers.rs:270-275 | a run whose connection sends event 1 twice |
| QueueServer.LeavesGap | server/src/modules/playback/handlers.rs:268-275 | a run whose reconnect leaves event 1 out |
| QueueServer.NoStretch | server/src/modules/playback/handlers.rs:266-294 | none of these deliveries is a stretch of the log |
| HlsRewrite.RewriteTag | desktop/core/src/media_proxy.rs:260-275 | the loop changes every URI attribute of the tag, and fails at the first that is unterminated or refused |
| HlsRewrite.RewriteHlsLine | desktop/core/src/media_proxy.rs:249-276 | a line's URI or its attributes change, its carriage return stays |
| HlsRewrite.TagUndone | desktop/core/src/media_proxy.rs:260-275 | scanning the rewritten tag finds every attribute again and gives the tag back |
| HlsRewrite.ManifestUndone | desktop/core/src/media_proxy.rs:238-287 | whatever takes the token off one URI, the same scanner gives the manifest back byte for byte |
| HlsRewrite.RemovingTheToken | desktop/core/src/media_proxy.rs:238-287 | removing the token prefix with the same scanner undoes the rewrite |
| HlsRewrite.MediaPathStarts | desktop/core/src/media_proxy.rs:343-398 | every media path is absolute |
| HlsRewrite.ProxyInvertsRewrite | desktop/core/src/media_proxy.rs:278-341 | a plain URI is rewritten if and only if the proxy forwards what it becomes to exactly that path and query |
| HlsRewrite.ProxyUndoesManifest | desktop/core/src/media_proxy.rs:238-341 | the proxy forwards every URI of a rewritten manifest to the URI it was |
| HlsRewrite.PlainParts | desktop/core/src/media_proxy.rs:278-341 | the path, query and fragment of a plain URI are where they are written |
| HlsLaws.AttributeGetsToken | desktop/core/src/media_proxy.rs:260-287 | with its text written out: the first `URI="..."` of a tag becomes `URI="/<token>..."`, or the tag fails as the URI does, and what is behind it is changed in turn |
| HlsLaws.OtherTags | desktop/core/src/media_proxy.rs:260-275 | a tag without `URI="` stays, and one whose value does not end is refused |
| HlsLaws.UriLine | desktop/core/src/media_proxy.rs:249-258 | a line that is a URI gets the token in front and keeps its carriage return; an empty line stays |
| HlsLaws.TagLine | desktop/core/src/media_proxy.rs:249-276 | a line that starts with `#` is changed as a tag |
| HlsLaws.ManifestByLines | desktop/core/src/media_proxy.rs:238-247 | a playlist is rewritten if and only if it starts with its header and every line can be, and then line by line |
| HlsLaws.UriIsTaken | desktop/core/src/media_proxy.rs:278-287 | a URI is taken if and only if it starts with a slash, parses, has no fragment and names a path that is served; which error otherwise |
| HlsLaws.MediaPathsAreServed | desktop/core/src/media_proxy.rs:343-398 | the served paths, by their routes: three kinds of stream, and seven routes whose ids are not empty |
| RouteWords.RouteWordShape | server/src/observability.rs:40-93 | every route word is lower-case letters, digits, `-` and `.`, from a letter to a letter or digit |
| Scrubber.WordsOf | server/src/observability.rs:518-531 | the loop gives the words of the text, each with the space after it |
| Scrubber.ScrubText | server/src/observability.rs:480-515 | the loop scrubs word by word, a path swallowing what follows up to the next URL or API path |
| ScrubWords.PartsAre | server/src/observability.rs:533-558 | prefix, core and suffix are the word, and the core neither starts nor ends in punctuation |
| ScrubWords.ApiWordIsStable | server/src/observability.rs:599-644 | a route of settled segments is recognised again in its word and scrubs to itself, trailing punctuation included |
| ScrubKinds.ApiSettles | server/src/observability.rs:622-644 | every API word scrubs to one whose segments are empty, a route word, a parameter or `<id>` |
| ScrubKinds.PathSettles | server/src/observability.rs:599-613 | a scrubbed path holds no separator |
| ScrubKinds.SlashedUrlIsUnstable | server/src/observability.rs:586-598 | a URL with a separator before its scheme never scrubs to a fixed point |
| ScrubFixedPoint.WordsAreLossless | server/src/observability.rs:517-531 | the words and their spaces are the text |
| ScrubFixedPoint.PiecesFixedPoint | server/src/observability.rs:480-515 | scrubbing scrubbed words changes nothing if and only if no URL was behind a separator |
| ScrubFixedPoint.ScrubIsIdempotent | server/src/observability.rs:471-515 | for every text, scrubbing twice is scrubbing once if and only if no URL has a separator before its scheme |
| ScrubFixedPoint.ScrubbedTextIsSettled | server/src/observability.rs:471-515 | then only API routes hold a separator, and their segments identify nothing |
| ScrubFixedPoint.NotIdempotent | server/src/observability.rs:586-598 | a text that scrubbing changes a second time |
| ScrubFixedPoint.ShortTextsAreStable | server/src/observability.rs:586-598 | no text of fewer than four characters is scrubbed differently a second time |
| ScrubMasks.UrlIffScheme | server/src/observability.rs:580-598 | a word is a URL if and only if it holds `://`, and left alone if and only if it holds no separator |
| ScrubMasks.ApiIffRoute | server/src/observability.rs:599-617 | any other word is an API route if and only if its first separator or `~` begins `/api/` with no backslash before the query, and a file path otherwise |
| ScrubMasks.AroundParts | server/src/observability.rs:533-558 | the punctuation around a word, character by character, is what is trimmed and put back |
| ScrubMasks.UrlLeaves | server/src/observability.rs:580-598 | of a URL's word the punctuation and what stands before the scheme are left, and `<url>` |
| ScrubMasks.PathLeaves | server/src/observability.rs:599-617 | of a file path's word a key with its `=` is left, `<path>`, and the punctuation its run ends in |
| ScrubMasks.ApiLeaves | server/src/observability.rs:603-644 | of an API route's word everything but the query is left, with its segments cleaned one by one |
| ScrubMasks.SegmentLeaves | server/src/observability.rs:627-642 | a segment stays if and only if it is empty, `<id>` with or without its `>`, a route word or a template's parameter, and else becomes `<id>`; what starts with a digit or a capital always does |
| ScrubMasks.ParameterIsFound | server/src/observability.rs:545-553 | a parameter is `{`, a name of letters and underscores, and perhaps `}` |
| ScrubMasks.PathTakesRun | server/src/observability.rs:497-508 | a path takes with it every word up to the next URL or API route, or to the end |
| ScrubMasks.OthersStandAlone | server/src/observability.rs:491-496 | any other word is scrubbed alone |
| ScrubMasks.NothingBehindPath | server/src/observability.rs:471-508 | of a text whose first separator is in a file path with neither a URL nor an API route behind it, nothing is left from that path on but the mask and what the text ends in |
| QueueOrder.PlaybackQueueContext.Sync | desktop/core/src/playback_navigation.rs:138-153 | a queue with an index out of range or an entry that is no source changes nothing; any other starts in sequence |
| QueueOrder.PlaybackQueueContext.AlignToSource | desktop/core/src/playback_navigation.rs:155-166 | the current item is the first the source identifies, or none |
| QueueOrder.SameEntry | desktop/core/src/playback_navigation.rs:116-127 | two entries are the same exactly when their ids are: the queue item's id where a Track has one, else its own |
| QueueOrder.PlaybackQueueContext.DrawOrder | desktop/core/src/playback_navigation.rs:170-176 | the loop of swaps keeps a permutation wherever the random numbers end |
| QueueOrder.PlaybackQueueContext.Shuffle | desktop/core/src/playback_navigation.rs:168-179 | always a permutation; completed, the current item is first and, with more than two items, not followed by its sequential successor |
| QueueOrder.AvoidedOrder | desktop/core/src/playback_navigation.rs:207-218 | rotating and swapping keep a permutation with the current item first and its successor elsewhere |
| QueueOrder.ShuffleLosesNoChoice | desktop/core/src/playback_navigation.rs:170-176 | draws that give the same order chose alike at every step, so no order is favoured |
| QueueOrder.PlaybackQueueContext.AdjacentSource | desktop/core/src/playback_navigation.rs:185-200 | the entry next to the current one in the order, around its ends only when asked |
| QueueOrder.StopsAtTheEnds | desktop/core/src/playback_navigation.rs:185-200 | without wrapping Next and Previous stop at the ends, and within the order wrapping makes no difference |
| QueueOrder.NextAndPrevious | desktop/core/src/playback_navigation.rs:192-198 | wrapped Next and Previous undo each other |
| QueueOrder.NextVisitsAll | desktop/core/src/playback_navigation.rs:192-198 | wrapped Next comes by every item once in as many steps as there are items |
| QueueOrder.Move | desktop/core/src/playback_navigation.rs:155-200 | with distinct identities, playing the adjacent entry makes it the current one |
| QueueOrder.PlayAround | desktop/core/src/playback_navigation.rs:155-200 | pressing Next as often as there are items plays each once and comes back |
| QueueOrder.Run | desktop/core/src/playback_navigation.rs:137-219 | every run of syncs, alignments, shuffles and resets keeps the order a permutation and the index in range |
| Migrate.Parse | server/src/migrate.rs:34-74 | what runs is every line of an Up section that is not goose's; version, section and transaction as annotated |
| MigrateFiles.UpSectionRuns | server/src/migrate.rs:34-74 | of a file with an Up section, and perhaps a Down section behind it, exactly the plain lines of the Up section run, in a transaction unless a line says otherwise, in any letter case and with space around |
| MigrateFiles.VersionsAreI64 | server/src/migrate.rs:35-39 | the version is the number before the first underscore, with or without a sign, and one beyond 64 bits is none |
| MigrateFiles.NoSection | server/src/migrate.rs:62-67 | a file whose lines open no section is refused |
| MigrateFiles.NoNumber | server/src/migrate.rs:35-39 | a file whose name does not begin with a number is refused |
| Migrate.Load | server/src/migrate.rs:77-101 | every migration of the directory, strictly ascending, or the first file that is none, or a version twice |
| Migrate.AscendingIffDistinct | server/src/migrate.rs:91-99 | sorting ends strictly ascending if and only if no version is there twice |
| MigrateUp.Database.ApplyInTransaction | server/src/migrate.rs:134-137 | the migration and its row, both or neither |
| MigrateUp.Database.ReadApplied | server/src/migrate.rs:162-175 | the versions whose latest row marks them applied |
| MigrateUp.OneMoreRow | server/src/migrate.rs:155-158 | a row decides its version and no other |
| MigrateUp.HistoryNext | server/src/migrate.rs:130-141 | executing the lowest pending migration, recorded or not, keeps the history in order |
| MigrateUp.Up | server/src/migrate.rs:105-144 | a run that succeeds executes exactly the pending versions in ascending order; one that does not leaves a history another can finish |
| MigrateUp.NothingPending | server/src/migrate.rs:162-175 | once all positive versions are applied nothing is pending, if and only if every version is positive |
| MigrateUp.Run | server/src/migrate.rs:103-144 | however many runs fail or are killed first, each pending transactional migration takes effect once, all ascending, and a further run applies nothing; undisturbed, it succeeds at once |
| Cancellation.HttpRequestCancellations.Begin | desktop/core/src/connection.rs:697-703 | the token registered for the id, or a new one that has not fired |
| Cancellation.HttpRequestCancellations.Cancel | desktop/core/src/connection.rs:705-709 | fires the id's token and no other |
| Cancellation.Core.ReadRequest | desktop/core/src/lib.rs:300-306 | a request is registered while its line is read, with the registration its id still has, if any, and cancelled if that is |
| Cancellation.Core.RunCancel | desktop/core/src/connection.rs:705-709 | the open request with the id is cancelled, and no other |
| Cancellation.Core.Poll | desktop/core/src/connection.rs:451-465 | a cancelled request answers so even when its response is there |
| Cancellation.Core.Finish | desktop/core/src/lib.rs:293-294 | the finished request leaves the registry, and only it |
| Cancellation.Core.Reject | desktop/core/src/lib.rs:1070-1074 | a line whose arguments cannot be read is answered and leaves its registration behind |
| Cancellation.Run | desktop/core/src/lib.rs:1515-1540 | every interleaving of the reader and the tasks is a run of the events told without tokens; an id is registered if and only if its last request is in flight or was rejected |
| Cancellation.CancelIsNotLost | desktop/core/src/connection.rs:451-465 | whatever follows, a request that was open when its cancel ran never answers with the server's response |
| Cancellation.CancelReachesItsRequest | desktop/core/src/lib.rs:1515-1540 | a cancel whose line follows its request's line finds that request, and cancels it if it has no answer yet |
| Cancellation.OnlyItsCancel | desktop/core/src/connection.rs:705-709 | a request answers as cancelled only if a cancel with its id found it open or it started cancelled |
| Cancellation.StartsCancelled | desktop/core/src/lib.rs:300-307 | a request starts cancelled if and only if its id stayed registered from one that was rejected and a cancel for it ran since |
| Cancellation.RejectedStayRegistered | desktop/core/src/lib.rs:1070-1074 | once every request has its answer exactly the ids whose last request was rejected are registered |
| Cancellation.CancelIsInherited | desktop/core/src/lib.rs:300-307 | a run in which a request no cancel found open is answered as cancelled |
| LoadTiming.LoadTimer.Start | desktop/core/src/playback_load_timing.rs:140-155 | the load it replaces is reported with that load's own figures |
| LoadTiming.LoadTimer.Observe | desktop/core/src/playback_load_timing.rs:158-176 | reports exactly when an accepted load plays or fails |
| LoadTiming.Run | desktop/core/src/playback_load_timing.rs:135-176 | the n-th report is of the n-th start and tells the first event that ended it and when its own file loaded; only the load under way is unreported |
| LoadTiming.SilentUntilAccepted | desktop/core/src/playback_load_timing.rs:162-168 | before its own Accepted mark a load has no file time and no Started or Failed report |

## Left out

- COM, WASAPI, `pactl`, `amixer`, PipeWire, D-Bus, mpv, HTTP and SQLite themselves: each is a call that may fail.
- Torn writes: writing or renaming a file is one step.
- JSON and URL parsing: the settings, record and saved-formats files hold values, which JSON is taken to give back; the saved formats inside are modelled down to their hex text. `url::Url` is a parameter, and its identity on plain URIs an assumption of the theorems that need it.
- Floats: volumes, gains and decibels are reals; a value that is not finite is one of its own. The rounding of raw PulseAudio volumes and of the half-decibel step is not modelled.
- An unreadable hand-off record: `recover_left_device_attenuation` clears it without an undo.
- WaveFormats.WaveFormat.WithSampleRate: the byte rate is computed modulo 2^32, as a release build does; a debug build stops instead.
- Processing.Controller.Open: `state_from_json` takes a parsed file's values as they are and fills in missing fields; here the file holds what was saved.
- Processing.Controller.Restore: the effective ReplayGain and the filters that playback reports are arbitrary.
- Calendar.CivilIsExact: integers are unbounded; no intermediate value leaves 64 bits for a 64-bit count of seconds.
- StoredTimes.WellFormed: texts that are no timestamps at all are not characterised, nor are texts with characters outside ASCII, where the source counts bytes.
- InstantTexts.Rfc3339RoundTrip: years outside 0 to 9999 have no RFC 3339 form; `Parse` knows no leap second and nothing finer than a nanosecond.
- QueueStream.Run: one origin; losing it forgets the last id and starts another stretch.
- QueueStream.Client.Consume: which events reach `on_event` is modelled, not what it does with them.
- Scrubber.ScrubText: scrubbing whole events, logs, spans and breadcrumbs field by field is not modelled.
- QueueOrder.PlaybackQueueContext.DrawOrder: a 64-bit draw modulo the count is not exactly uniform, and a 32-bit machine would cut it first.
- Migrate.Parse: the file is given as its lines.
- MigrateUp.Up: rollbacks by goose itself between runs are rows the latest-row rule covers, but no event of `Run`; migrations outside a transaction are executed at least once.
- QueueServer.Deliveries: one user and one subscriber; a mutation that fails to read back publishes nothing, and one may publish what it read back again.
- Cancellation.Run: an id used again while in flight; requests without an id have no token.
- LoadTiming.LoadTimer.Observe: a poisoned lock loses the report.
- Durations, names and log lines; request headers; the Electron shell, the web client, validators, authentication, tray and MPRIS labels, search tables, and the desktop's own smaller scrubber.
