# Verified model of the remote-desktop server's stateful core

The server shares one desktop with several browsers: it captures and encodes the screen once, sends the result to every
peer over WebRTC, and takes keyboard, pointer and clipboard input back. This project models the parts whose correctness
lies in whole runs rather than in single calls, and proves what every run keeps:

- **Input leases** (`input_events`, `input_controller`, `input_safety`, `input_history`, `input_transcript`, `input_wake`,
  `input_calls`, `input_class`): owners with
  leases, the shared coalescing queue, counted held keys and buttons, and revocation, against a sender whose calls fail
  arbitrarily. The per-peer handshake between the lease and the data channels is in `lease_handshake`.
- **Encoder branch replacement** (`branch_switch`) and the reference-counted latest-sample slot (`sample_slot`).
- **Clipboard** (`clipboard_framing`, `clipboard_reservation`, `clipboard_content`, `clipboard_publisher`): the length-declared framing, header
  validation and collection of selections, and the latest-value publisher.
- **RTP timing** (`rtp_timing`) and the per-peer mailboxes (`audio_mailbox`, `video_mailbox`).
- **Rate control** (`sent_rate`, `bandwidth_target`, `encoder_rate`).
- **Admission and profile changes** (`admission`, `codec_compat`, `quality_generations`).

Each protocol is a state machine whose steps are the mutex-protected sections, atomic accesses and channel operations of
the source; a run is any sequence of steps, so every interleaving is covered. Where the source updates an object in
place, a class does the same and its methods are proved equal to the state functions the run theorems are about. Timers,
sender and encoder outcomes, detector statistics and the clock are parameters or free steps.

`dafny verify dfyconfig.toml` checks everything.

## What the proofs found

These are properties one would expect of the code that do not hold of it; each has a lemma with a concrete run, and a
lemma that says exactly when the property does hold.

- A quality update equal to the current one returns early in the media service, but the recorded encoder rate is still
  overwritten; `EncoderRate.NoOpUpdateForgets` and `EncoderRate.SyncIsLostExactly`.
- The quality generation stays when an update finds no incompatible peer, and when one fails half-way, so a profile that
  returns before a close list is processed leaves the old list in force against compatible peers;
  `QualityGenerations.ReturningProfileStillCloses`, `QualityGenerations.HalfReturnStillCloses` and
  `QualityGenerations.RightnessIsKeptExactly`.
- A quality update that fails after the media service has switched returns before listing the peers it leaves behind;
  `QualityGenerations.HalfUpdateLeavesPeer` and `QualityGenerations.CoverIsKeptExactly`.
- Codec compatibility is equality exactly for codecs without an empty fmtp value; `CodecCompat.CompatibleIsNotSymmetric`
  and `CodecCompat.CompatibleIsEquality`.
- The first sample a peer takes may be a delta frame when a target selection's clear comes while a delta frame is past the
  gate or after a keyframe has opened it again; `VideoMailbox.UncleanClearIsReachable`,
  `VideoMailbox.UncleanClearMayLeaveDeltaFirst` and `VideoMailbox.FirstTakenIsKey`.
- A positive duration shorter than a tick at a timing discontinuity leaves the timestamp where it is;
  `RtpTiming.ShortDurationStalls` and `RtpTiming.DiscontinuityAdvances`.
- A clipboard format with an empty MIME type passes header validation; `ClipboardContent.UntypedFormatIsAccepted` and
  `ClipboardContent.AcceptedTypes`.
- The sent-rate ring counts a send recorded ten or more buckets late in a newer bucket; `SentRate.LateIsCounted` and
  `SentRate.RingAgainstLog`.
- An input event that passed its channel checks may be submitted under a lease granted for another channel, because only
  the owner is checked again; `LeaseHandshake.OldEventUnderNewLease`, `LeaseHandshake.NewEventUnderOldLease` and
  `LeaseHandshake.SubmissionBelongsExactly`.

The growth of the bandwidth target is bounded in every run by the time the clock moves forward. That is the elapsed time if
and only if updates are applied in the order of their stamps (`BandwidthTarget.CreditAgainstElapsed`); out of order, which
two RTCP readers allow, elapsed time is no bound (`BandwidthTarget.OutOfOrderGrowsFurther`).

## Model

| member | source | states |
|---|---|---|
| `InputEvents.MergeKeepsMeaning` | input/controller.go:290-340 | a coalesced event has the meaning of the pair it replaces: same transitions, position at each, total scroll |
| `InputEvents.CoalescesMeaning` | input/controller.go:290-340 | a sequence cut into coalesced groups cannot be told from the raw one by any desktop |
| `InputEvents.CoalescesMerge` | input/controller.go:300-330 | merging into the last queued event extends the last group and leaves the others |
| `InputEvents.CoalescesPrefix` | input/controller.go:392-415 | whatever part of the queue has been delivered coalesces a prefix of what was submitted |
| `InputSafety.RunsAreSafe` | input/controller.go:197-424 | every run of calls, worker steps and sender failures keeps the controller's invariant; a closed controller has no owner |
| `InputSafety.RevokeOwnerKeeps` | input/controller.go:541-559 | ending a lease, also after a failed release call, restores the full invariant and removes exactly that owner |
| `InputSafety.FailDeliveryKeeps` | input/controller.go:417-515 | after a failed sender call every lease has ended and nothing stays counted |
| `InputSafety.HeldCodesAreCounted` | input/controller.go:417-611 | each code's count is the number of owners holding it, no zero entries; counted codes are those pressed without a later release call; none is left when no owner remains |
| `InputSafety.SenderAgrees` | input/controller.go:417-611 | counted codes are down at the sender; while no release call fails, the sender's down-set is exactly the held codes |
| `InputSafety.EndedLeaseIsSilent` | input/controller.go:392-424 | no event of an ended lease reaches the sender in any continuation, even if dequeued before or re-acquired after |
| `InputSafety.QueueIsLive` | input/controller.go:197-345 | queued entries belong to live leases, per-owner counts are exact and bounded, owners imply a sender, locking admits one owner |
| `InputHistory.EveryLeaseIsFaithful` | input/controller.go:263-415 | for every lease of every run, what was and will be delivered under it coalesces what it submitted |
| `InputHistory.OrderIsFaithful` | input/controller.go:290-415 | while no lease ends, delivered and pending events of all owners coalesce all submissions in global order |
| `InputHistory.DrainedMeansSubmitted` | input/controller.go:290-415 | once drained, delivered events mean the same as the raw submissions to every desktop |
| `InputTranscript.StepSends` | input/controller.go:417-515 | one step of any kind: the sender hears of an event exactly when the worker delivers one that is not skipped |
| `InputTranscript.SkippedIsRedundant` | input/controller.go:431-493 | in every run a skipped press is of a code already down, a skipped release by an owner not holding the code or while another holds it |
| `InputTranscript.TranscriptIsDelivered` | input/controller.go:392-515 | in every run the sender's event calls are the delivered events in order, with exactly the skipped ones left out |
| `InputWake.NoWakeUpIsLost` | input/controller.go:290-415 | in every run a queue that is not empty has a wake token or a draining worker, although coalescing sends no token |
| `InputWake.WorkerCanDrain` | input/controller.go:392-415 | from every reachable state the worker's own turns deliver everything that is queued |
| `InputWake.TokenForEachAppend` | input/controller.go:290-340 | a submit leaves a token exactly if it makes the queue longer |
| `InputWake.WorkerTurns` | input/controller.go:392-415 | a waiting worker takes the token and drains, waits again with nothing left, and ends on the stop channel |
| `InputCalls.AcquireGrantsExactly` | input/controller.go:197-252 | an owner without a lease gets one if and only if the controller is open and enabled, the sender attached and connected, each configured device class authorized and ready, and under locking nobody else owns input; a refusal changes nothing, a grant adds only this lease |
| `InputCalls.ReacquireKeepsLease` | input/controller.go:216-223 | an owner with a lease keeps it, answered by the open, enabled and authorization checks |
| `InputCalls.RefusalNamesFirstReason` | input/controller.go:201-244 | the error names the first requirement not met, in the order of the checks |
| `InputCalls.GrantIsNew` | input/controller.go:241-247 | in every run a granted lease number is above that of every lease, queued, accepted or delivered event before |
| `InputCalls.AttachWorksOnce` | input/controller.go:163-187 | attaching succeeds exactly on an open controller without a sender, and takes effect whole |
| `InputCalls.ReleaseEndsOneLease` | input/controller.go:348-357 | a release ends exactly its owner's lease and drops its entries |
| `InputCalls.RevocationEndsAllLeases` | input/controller.go:359-367 | a revocation ends every lease and empties the queue |
| `InputCalls.CloseEndsAllLeases` | input/controller.go:369-390 | closing ends every lease and empties the queue, once and for good |
| `InputCalls.MergesExactly` | input/controller.go:300-330 | two events coalesce if and only if both are absolute positions, or relative motions or stopless scrolls with finite sums; the later sequence number stays |
| `InputCalls.SubmitTakesExactly` | input/controller.go:263-345 | an event is taken if and only if the controller is open, the submitter owns input, the device class is configured, and it joins the last entry or there is room; each refusal has its reason and only an overflow costs the lease |
| `InputCalls.HandleHoldsExactly` | input/controller.go:431-493 | a handled key or button changes exactly its owner's hold on that code, unless a refused call ends every lease |
| `InputCalls.DeliverSendsExactly` | input/controller.go:426-515 | a pointer, scroll or text entry makes one sender call: success changes nothing else, failure ends every lease; an untaken text ends every lease without a call |
| `InputCalls.HandleDropsExactly` | input/controller.go:417-424 | an entry is dropped without effect when the controller is closed, its lease ended or no sender attached |
| `InputObject.Controller.Attach` | input/controller.go:163-187 | attaching refuses a closed controller or a second sender and otherwise sets sender and authorization |
| `InputObject.Controller.Acquire` | input/controller.go:197-252 | the object grants or refuses a lease as the specification does, error by error |
| `InputObject.Controller.Submit` | input/controller.go:263-345 | the object coalesces, appends or revokes an overloaded owner as the specification does |
| `InputObject.Controller.Release` | input/controller.go:348-357 | release revokes the owner or reports that it holds no lease |
| `InputObject.Controller.Close` | input/controller.go:369-390 | close marks the controller closed once and revokes every owner |
| `InputObject.Controller.Dequeue` | input/controller.go:392-415 | the worker takes the oldest entry and gives its owner the queue place back |
| `InputObject.Controller.Handle` | input/controller.go:417-515 | the worker re-checks the lease and delivers, drops or fails the entry |
| `InputObject.Controller.Toggle` | input/controller.go:431-493 | a key or button reaches the sender only when its shared count changes between zero and one; a failed call fails the delivery |
| `InputObject.Controller.RevokeOwner` | input/controller.go:541-559 | held codes are let go in ascending order, the owner removed and its entries filtered out |
| `InputObject.Controller.FilterQueue` | input/controller.go:548-554 | the in-place filter keeps the other owners' entries in order |
| `InputObject.Controller.RevokeAll` | input/controller.go:561-575 | all owners are revoked, in ascending order |
| `InputObject.Controller.LetGoOfAll` | input/controller.go:577-611 | each held code is uncounted once and released at the sender when its count reaches zero |
| `LeaseHandshake.RunsKeep` | webrtc/control.go:46-299 | every interleaving of channel, acquire, revocation, target and close steps keeps: an owned lease is checked, about to be checked, or about to be released |
| `LeaseHandshake.LeaseNeedsItsChannels` | webrtc/control.go:250-299 | with no handler in flight a peer owns the lease only if it is not closing and the channels its acquire recorded are current |
| `LeaseHandshake.StaleLeaseIsWatched` | webrtc/control.go:250-299 | a lease without its channels always has a handler in flight that will release or check it |
| `LeaseHandshake.ContinueKeepsGrant` | webrtc/control.go:569-596 | no later section of any handler, revocation callbacks included, leaves a lease unwatched |
| `LeaseHandshake.BeginKeepsGrant` | webrtc/peer.go:772-787 | no first section of any handler, closing included, leaves an owned lease unwatched |
| `LeaseHandshake.CheckedIsUndisturbed` | webrtc/control.go:569-596 | an older revocation callback cannot take the channels of a grant that passed its last check |
| `LeaseHandshake.AcquireSucceeds` | webrtc/control.go:250-299 | with its channels in place an undisturbed acquire gets the lease and changes nothing else |
| `LeaseHandshake.AcquireRefused` | webrtc/control.go:250-299 | an acquire on another channel, while closing or without both input channels changes nothing, and a refused one uses up a lease number only |
| `LeaseHandshake.ReleaseRequestReleases` | webrtc/control.go:326-333 | a release request on the current control channel of a peer not closing gives the lease up and changes nothing else; any other changes nothing |
| `LeaseHandshake.TargetChangeReleases` | webrtc/control.go:212-249 | a target change gives the lease up and outdates every acquire under way |
| `LeaseHandshake.NewControlChannel` | webrtc/control.go:46-87 | a control channel takes its place; one that replaces another costs the lease |
| `LeaseHandshake.NewInputChannel` | webrtc/control.go:89-130 | an input channel takes its place under a new generation; one that replaces another costs the lease |
| `LeaseHandshake.NewMotionChannel` | webrtc/control.go:132-174 | a motion channel takes its place under a new generation; one that replaces another costs the lease |
| `LeaseHandshake.ClosedControlChannel` | webrtc/control.go:60-87 | the current control channel's end costs the lease, any other's changes nothing |
| `LeaseHandshake.ClosedInputChannel` | webrtc/control.go:104-130 | the current input channel's end costs the lease, any other's changes nothing |
| `LeaseHandshake.ClosedMotionChannel` | webrtc/control.go:147-174 | the current motion channel's end costs the lease, any other's changes nothing |
| `LeaseHandshake.CloseReleases` | webrtc/peer.go:772-787 | closing marks the peer and gives the lease up, once |
| `LeaseHandshake.StopReleases` | webrtc/service.go:411-444 | a stopping service marks its peers and each gives its lease up |
| `LeaseHandshake.RevocationClosesChannels` | webrtc/control.go:569-596 | a revoked lease takes both input channels with it unless a channel or the lease number has changed or the peer is closing |
| `LeaseHandshake.MessagesAreChecked` | webrtc/control.go:427-520 | a message passes exactly if its channel is current twice, the peer not closing, and the peer owns a lease; otherwise it is dropped |
| `LeaseHandshake.SubmissionBelongsExactly` | webrtc/control.go:488-520 | in every run an event about to be submitted under a settled lease belongs to that lease if and only if its channel is still current |
| `LeaseHandshake.OldEventUnderNewLease` | webrtc/control.go:488-520 | a run submits an event of a replaced channel under the lease granted for the new one |
| `LeaseHandshake.NewEventUnderOldLease` | webrtc/control.go:488-520 | a run submits an event of the new channel under the old lease that is about to be released |
| `BranchSwitch.RunsKeep` | media/persistent_pipeline.go:388-518 | every run of sample, activation, failure, replacement and close steps keeps the branch invariant |
| `BranchSwitch.SwitchesAreSeamless` | media/persistent_pipeline.go:1002-1145 | emitted generations never decrease and change only at keyframes, so an old branch is silent once the new one emits |
| `BranchSwitch.FailedReplacementChangesNothing` | media/persistent_pipeline.go:1002-1145 | when a replacement fails the active branch is in place, active, and stopped only if it failed itself |
| `BranchSwitch.PromoteKeeps` | media/persistent_pipeline.go:478-497 | the swap keeps the invariant: from here the old branch can only finish an emit under way |
| `BranchSwitch.EmitKeeps` | media/persistent_pipeline.go:388-472 | what the emitting branch hands on extends the stream without a step back or a change off a keyframe |
| `BranchSwitch.ReplacementSucceeds` | media/persistent_pipeline.go:1002-1145 | from every reachable state with a current branch and no replacement under way, error-free steps and a keyframe of the candidate end with the candidate active and the old branch stopped |
| `BranchSwitch.ReplacementEmitsKeyframe` | media/persistent_pipeline.go:388-472 | what the new branch emits next is the keyframe it waited with |
| `BranchSwitch.RolledBackExactly` | media/persistent_pipeline.go:1036-1133 | in every run a replacement is rolled back if and only if its step reports an error or its candidate is found failed, stopped or displaced at the checks of its phase; otherwise it goes on to the next phase |
| `BranchSwitch.RollBackStops` | media/persistent_pipeline.go:1074-1083 | a candidate rolled back is stopped and the active branch stays |
| `BranchSwitch.ActiveBranchEmits` | media/persistent_pipeline.go:388-472 | a running active branch emits every sample it pulls |
| `BranchSwitch.CandidateOffersKeyframes` | media/persistent_pipeline.go:416-432 | a branch not active lets delta frames go and offers a keyframe |
| `BranchSwitch.StoppedBranchEnds` | media/persistent_pipeline.go:411-449 | a streaming thread ends when its pull, map or emit fails or its branch is found stopped |
| `BranchSwitch.FailureStops` | media/persistent_pipeline.go:499-518 | a failure marks and stops its branch, unless that very branch is being activated |
| `BranchSwitch.ClosingStops` | media/persistent_pipeline.go:1286-1335 | closing stops the active branch and leaves none |
| `SampleSlot.VideoSampleSlot.Store` | media/persistent_pipeline.go:52-72 | storing replaces the sample, advances the sequence, closes the waiting channel and returns the sample to drop; a closed slot refuses |
| `SampleSlot.VideoSampleSlot.Next` | media/persistent_pipeline.go:74-87 | a newer sample is returned with a reference of its own, otherwise the channel to wait on |
| `SampleSlot.VideoSampleSlot.Close` | media/persistent_pipeline.go:89-104 | closing empties the slot once and closes the waiting channel |
| `SampleSlot.StoredIsFound` | media/persistent_pipeline.go:52-87 | after a store an open slot holds that very sample and hands it to everyone who has not seen it; a closed slot hands it back |
| `SampleSlot.CaptureStores` | media/persistent_pipeline.go:942-979 | a capture callback that runs through leaves its sample in an open slot and nothing in a closed one |
| `SampleSlot.PumpTakes` | media/persistent_pipeline.go:332-386 | a pump takes the sample it has not seen, waits when there is none and ends with the slot |
| `SampleSlot.CloseCloses` | media/persistent_pipeline.go:89-104 | closing empties the slot and wakes every waiting pump |
| `SampleSlot.ReferencesAreConserved` | media/persistent_pipeline.go:38-104 | with any number of tasks each sample's references equal its holders', so none is used after its last release |
| `SampleSlot.PumpsMoveForward` | media/persistent_pipeline.go:332-386 | each pump sees strictly increasing sequence numbers and a closed slot holds nothing |
| `SampleSlot.NoPumpOversleeps` | media/persistent_pipeline.go:349-356 | in every run a pump that waits while the slot is closed or holds a sample it has not seen finds its channel closed |
| `SampleSlot.StepConserves` | media/persistent_pipeline.go:942-979 | capture, pump and close steps create and drop references in balance |
| `ClipboardFraming.FlattenInjective` | webrtc/clipboard.go:229-302 | payload bytes and declared sizes determine the formats |
| `ClipboardFraming.AfterChunks` | webrtc/clipboard.go:229-302 | after any chunks up to the declared total, reception is under way with exactly these bytes, or finished exactly at the last byte |
| `ClipboardFraming.RoundTrip` | webrtc/clipboard.go:397-444 | for every content and every cut into chunks one payload is delivered and is that content |
| `ClipboardFraming.ExcessIsRejected` | webrtc/clipboard.go:262-302 | a byte beyond the declared total ends the transfer without delivery |
| `ClipboardFraming.NothingMixes` | webrtc/clipboard.go:176-320 | after any message sequence with timers, a payload consists of exactly the chunks since its own header |
| `ClipboardFraming.OutcomesAreExact` | webrtc/clipboard.go:176-320 | each outcome of a message has its exact condition: busy only during a transfer, which stays; too long, unexpected or excess chunks; a timer exactly when awaited |
| `ClipboardFraming.FilledLength` | webrtc/clipboard.go:262-302 | the total is reached exactly when every format is passed |
| `ClipboardFraming.Receiver.SkipEmpty` | web/src/lib/desktop-connection.ts:1118-1171 | empty formats are skipped, so the current format always has room |
| `ClipboardFraming.Receiver.CopyInto` | web/src/lib/desktop-connection.ts:1141-1171 | one copy makes progress and appends exactly the copied bytes |
| `ClipboardFraming.Receiver.Feed` | web/src/lib/desktop-connection.ts:1141-1171 | the copy loop takes as much of a chunk as the declared sizes have room for |
| `ClipboardFraming.Receiver.OnHeader` | webrtc/clipboard.go:227-261 | a header past its checks starts the transfer or completes it at once, as the specification does, unless one is under way |
| `ClipboardReservation.SectionsActAsOne` | webrtc/clipboard.go:213-261 | in every interleaving of header sections, chunks, timers and channel replacement the channel acts as if each header that takes effect were handled at one moment, one at a time and never on a busy channel |
| `ClipboardReservation.ReservationIsLostExactly` | webrtc/clipboard.go:176-261 | a reservation is lost before its second section if and only if the channel is replaced or closed or an oversized chunk arrives |
| `ClipboardReservation.HeaderTakesEffect` | webrtc/clipboard.go:213-261 | a header from an owner on a current, idle, unreserved channel takes effect at its second section if nothing comes between; any other has no effect |
| `ClipboardReservation.CurrentChannelHears` | webrtc/clipboard.go:176-190 | chunks and timers of the current channel are heard; a detached channel hears nothing and ends empty |
| `ClipboardFraming.Receiver.OnBinary` | webrtc/clipboard.go:263-302 | the object collects, delivers or rejects a chunk as the specification does, and delivers the declared formats |
| `ClipboardFraming.Receiver.OnTimer` | webrtc/clipboard.go:304-320 | a timer ends the transfer only if it is the transfer that armed it and nothing has armed another since |
| `ClipboardFraming.TimersEndTheirOwnTransfer` | webrtc/clipboard.go:304-320 | in every run a timer that ends a transfer was armed by a message of that transfer, with no chunk and no change since |
| `ClipboardFraming.TimersAreArmedOnce` | webrtc/clipboard.go:304-320 | in every run no two messages arm the same timer |
| `ClipboardFraming.CutFormat` | web/src/lib/desktop-connection.ts:1006-1025 | one format is cut into non-empty chunks of bounded size that join to it |
| `ClipboardFraming.WriteChunks` | webrtc/clipboard.go:397-444 | the written chunks join to the whole payload and each fits the receiver's limit |
| `ClipboardContent.Validate` | webrtc/clipboard.go:322-354 | the header check accepts exactly the acceptable headers |
| `ClipboardContent.ValidateFormats` | webrtc/clipboard.go:330-354 | the accumulating loop accepts exactly when every format is well-typed, distinct and the total fits |
| `ClipboardContent.NormalizeFixes` | clipboard/controller.go:236-244 | a MIME type is its own normal form if and only if it is supported or empty |
| `ClipboardContent.NormalizeCuts` | clipboard/controller.go:236-244 | parameters after a semicolon do not matter; what is left is the folded type if supported and empty otherwise |
| `ClipboardContent.AcceptedTypes` | webrtc/clipboard.go:322-354 | the formats of an accepted header all have supported types if and only if none is empty |
| `ClipboardContent.UntypedFormatIsAccepted` | webrtc/clipboard.go:336-345 | a format without a type passes |
| `ClipboardContent.Collect` | clipboard/controller.go:184-209 | the read loop collects the first readable offer of each supported type within the byte limit |
| `ClipboardContent.CollectsExactly` | clipboard/controller.go:184-209 | an offer is taken if and only if its type is supported, no earlier taken offer has it, its read succeeded and it fits beside those before; each format carries the type and bytes of its own offer, in order |
| `ClipboardContent.CollectedIsPublishable` | clipboard/controller.go:184-209 | collected formats are supported, distinct and within the byte limit |
| `ClipboardContent.Pigeonhole` | clipboard/controller.go:184-209 | distinct formats are no more than the supported types |
| `ClipboardContent.PublishedIsAcceptable` | clipboard/controller.go:184-218 | every desktop selection that is published passes the wire header check, its format limit included |
| `ClipboardPublisher.RunsKeep` | clipboard/controller.go:139-234 | every interleaving of subscribe, unsubscribe, publish and receive keeps the publisher's invariant |
| `ClipboardPublisher.PublisherNeverBlocks` | clipboard/controller.go:215-232 | no send blocks or hits a closed channel; after a publish each subscriber holds or has taken the content |
| `ClipboardPublisher.PublishReachesEveryone` | clipboard/controller.go:215-232 | from every reachable state with nothing being published, the publisher's own steps bring a usable selection to every subscriber |
| `ClipboardPublisher.SubscribersGetLatest` | clipboard/controller.go:139-163 | a new subscriber starts with the latest content on its own open channel; one that leaves finds its channel closed |
| `ClipboardPublisher.PeerSetsLatest` | clipboard/controller.go:94-127 | a peer's content becomes the latest if and only if its header passes and declares it |
| `ClipboardPublisher.ReceiveTakes` | clipboard/controller.go:139-163 | a receive empties exactly its channel; calls wait for the publisher |
| `ClipboardPublisher.ChannelsCarryAcceptable` | clipboard/controller.go:94-163 | in every run all content held for or handed to a subscriber, set by a peer or selected on the desktop, passes the wire header check |
| `RtpTiming.TrackBinding.DurationToTicks` | webrtc/track.go:126-144 | the object converts with the carried remainder, 64-bit wrap and 32-bit saturation as specified |
| `RtpTiming.OverflowBound` | webrtc/track.go:126-144 | no 64-bit step overflows for any duration and remainder if and only if the clock rate is at most 2*10^9 |
| `RtpTiming.ConvertIsExact` | webrtc/track.go:126-144 | without overflow the conversion is the exact quotient and remainder, or saturates exactly when they would not fit |
| `RtpTiming.ConvertConserves` | webrtc/track.go:126-144 | at every 32-bit clock rate ticks times 10^9 plus remainder gains exactly duration times clock rate |
| `RtpTiming.NothingIsLost` | webrtc/track.go:94-144 | at every 32-bit clock rate, over every sequence of non-saturating durations, nothing is lost and the remainder stays below 10^9 |
| `RtpTiming.RangeAdvances` | webrtc/media_transport.go:222-281 | at every 32-bit clock rate an advance between one tick and the maximum gap moves the timestamp by 1 to 2^31-1 ticks |
| `RtpTiming.DiscontinuityAdvances` | webrtc/media_transport.go:125-130 | unless its seconds overflow, a discontinuity advances by 1 to 2^31-1 ticks for every remainder if and only if its duration is non-positive or between one tick and the maximum gap |
| `RtpTiming.MinimumIsShortest` | webrtc/media_transport.go:125-130 | the minimum tick yields a tick at every remainder and nothing shorter yields one alone |
| `RtpTiming.PositiveIsShortest` | webrtc/media_transport.go:125-130 | a sample without a positive duration advances by the shortest time that moves the timestamp, any other by its own |
| `RtpTiming.MaximumIsLongest` | webrtc/media_transport.go:222-247 | the maximum gap keeps every step below 2^31 ticks and a longer one does not |
| `RtpTiming.EachSampleAddsItsTime` | webrtc/media_transport.go:222-281 | in every steady run a sample adds its gap, at a discontinuity its positive duration, and otherwise the shortest time that moves the timestamp, with ticks less than one away from that time |
| `RtpTiming.ShortDurationStalls` | webrtc/media_transport.go:125-130 | a run whose discontinuity has a positive duration shorter than a tick does not move the timestamp |
| `RtpTiming.VideoWriter.WriteSample` | webrtc/media_transport.go:222-281 | the writer's fields and counters follow the specification sample by sample |
| `RtpTiming.TimestampsMoveForward` | webrtc/media_transport.go:222-281 | in every run each sample after the first advances the timestamp by 1 to 2^31-1 ticks |
| `RtpTiming.DriftIsBounded` | webrtc/media_transport.go:262-281 | RTP elapsed time stays within one tick plus 1 ns of the time advanced |
| `RtpTiming.ProducedTimeIsKept` | webrtc/media_transport.go:222-281 | without discontinuities or minimum-tick bumps the time advanced is the produced time |
| `AudioMailbox.Mailbox.PutSample` | webrtc/media_transport.go:83-101 | a full mailbox drops its oldest entry; the token is left |
| `AudioMailbox.Mailbox.TakeSample` | webrtc/media_transport.go:103-121 | the oldest entry is taken and the token passed on if more is left |
| `AudioMailbox.RunsKeep` | webrtc/media_transport.go:82-121 | at most four held, the newest; output is an ordered subsequence; each put is taken, lost or held once; no wake-up is lost |
| `AudioMailbox.PutKeepsNewest` | webrtc/media_transport.go:89-101 | a put keeps the newest four samples |
| `AudioMailbox.LookTakesOldest` | webrtc/media_transport.go:103-121 | an awake consumer takes the oldest entry and waits when there is none |
| `AudioMailbox.ConsumerWaits` | webrtc/media_transport.go:103-121 | a consumer waits for the token and takes nothing meanwhile |
| `VideoMailbox.Mailbox.PutSample` | webrtc/media_transport.go:28-40 | a delta frame never replaces a pending keyframe; anything else replaces what is pending |
| `VideoMailbox.Mailbox.TakeSample` | webrtc/media_transport.go:42-57 | the pending sample is taken once |
| `VideoMailbox.NothingIsLost` | webrtc/media_transport.go:177-199 | no wake-up is lost; without a clear, samples seen are dropped, taken or pending |
| `VideoMailbox.PutKeepsBest` | webrtc/media_transport.go:28-40 | only a delta frame behind a pending keyframe is refused; any other sample is what is pending afterwards |
| `VideoMailbox.SampleGetsThrough` | webrtc/media_transport.go:177-199 | a keyframe, or a delta frame past an open gate with no keyframe pending, of a connected peer is put and taken; a keyframe opens the gate |
| `VideoMailbox.GateHoldsBack` | webrtc/media_transport.go:177-199 | a closed gate drops delta frames, an unconnected peer sees nothing, and connecting, selecting and losing a target close the gate |
| `VideoMailbox.ConsumerWaits` | webrtc/media_transport.go:42-74 | a consumer waits for the token and takes nothing meanwhile; a clear follows its selection |
| `VideoMailbox.FirstTakenIsKey` | webrtc/peer.go:257-275 | the first sample taken is a keyframe in every run in which each clear before it is clean |
| `VideoMailbox.UncleanClearMayLeaveDeltaFirst` | webrtc/service.go:463-479 | after any unclean clear before the first take some run takes a delta frame first |
| `VideoMailbox.UncleanClearIsReachable` | webrtc/service.go:463-479 | such a clear happens in a run from the start |
| `SentRate.Ring.Advance` | webrtc/bandwidth_estimator.go:225-234 | moving the window clears exactly the stale slots: each slot holds the bytes counted in its bucket |
| `SentRate.Ring.RecordSent` | webrtc/bandwidth_estimator.go:204-210 | a send is counted in its own bucket unless ten or more buckets late |
| `SentRate.Ring.SentBitrate` | webrtc/bandwidth_estimator.go:213-223 | the rate is sixteen times the bytes sent in the last ten buckets plus what late sends add |
| `SentRate.RingAgainstLog` | webrtc/bandwidth_estimator.go:204-234 | the ring equals the full log's window sum if and only if no counted send was late |
| `SentRate.LateIsCounted` | webrtc/bandwidth_estimator.go:204-234 | a concrete late send is counted in a window it was not sent in |
| `SentRate.RecordLate` | webrtc/bandwidth_estimator.go:204-234 | the ring itself reports 16 bit/s for a window in which nothing was sent |
| `SentRate.SendIsCounted` | webrtc/bandwidth_estimator.go:204-210 | recording changes the slot of its timestamp and no other |
| `BandwidthTarget.Estimator.Update` | webrtc/bandwidth_estimator.go:144-202 | the object's update follows the specification and reports a change exactly when the target changed |
| `BandwidthTarget.WhyTheTargetMoves` | webrtc/bandwidth_estimator.go:157-190 | the target rises only on a fresh increase while video uses its budget and never beyond 1.5 times the sent rate; falls only for loss, a fresh decrease or an increase stamped before the last decision; only loss moves it while application-limited |
| `BandwidthTarget.LimitHasHysteresis` | webrtc/bandwidth_estimator.go:157-163 | the limit is entered below 65 percent of the budget and left above 80 |
| `BandwidthTarget.DecreaseTakesEffect` | webrtc/bandwidth_estimator.go:170-174 | a fresh decrease brings the target down to the detector's or the floor, and never up |
| `BandwidthTarget.IncreaseTakesEffect` | webrtc/bandwidth_estimator.go:175-184 | a fresh increase raises the target by the full factor of its elapsed time unless the sent rate or the upper bound stops it short |
| `BandwidthTarget.ElapsedIsCapped` | webrtc/bandwidth_estimator.go:176-179 | the elapsed time is that since the last decision, at most a second, and a second for the first |
| `BandwidthTarget.LossTakesEffect` | webrtc/bandwidth_estimator.go:187-190 | a loss decrease takes half the loss share off the target, down to the floor |
| `BandwidthTarget.StartsInBounds` | webrtc/bandwidth_estimator.go:71-88 | an estimator starts at its bitrate or the nearer bound, unlimited and without a past decision |
| `BandwidthTarget.StaysInBounds` | webrtc/bandwidth_estimator.go:236-238 | in every run, whatever the stamps, the target stays between 100 kbit/s and 50 Mbit/s |
| `BandwidthTarget.GrowthIsBounded` | webrtc/bandwidth_estimator.go:173-184 | over every window of every run the target grows at most by 1.08 to the power of one plus the seconds the clock moved forward, at most one for each update |
| `BandwidthTarget.CreditAgainstElapsed` | webrtc/bandwidth_estimator.go:173-184 | that time is at most the forward time, which is at least the elapsed time and equal to it if and only if no update is stamped before an earlier one |
| `BandwidthTarget.OutOfOrderGrowsFurther` | webrtc/bandwidth_estimator.go:173-184 | runs with a stamp a second or more before an earlier one exceed the bound over elapsed time |
| `BandwidthTarget.LossDecreasesAreApart` | webrtc/bandwidth_estimator.go:187-190 | in every run consecutive loss decreases are stamped more than 200 ms apart, in whatever order updates are applied |
| `BandwidthTarget.HeldWhileLimited` | webrtc/bandwidth_estimator.go:157-190 | while application-limited the target only falls, only for loss, and n moves span more than n-1 intervals |
| `EncoderRate.Service.FindLimit` | webrtc/service.go:643-654 | the loop finds the least of the requested rate and all open peers' estimates, floored at 100 |
| `EncoderRate.Service.ApplyCongestion` | webrtc/service.go:643-678 | after success the recorded rate is the limit, or within max(250, rate/20) of a limit below the requested rate; a full recovery restores the requested rate |
| `EncoderRate.Service.MediaSetBitrate` | media/media.go:451-478 | a rate out of range or a stopped service is refused and changes nothing |
| `EncoderRate.Service.UpdateQuality` | webrtc/service.go:495-501 | media update, recorded rate and congestion limit in this order; after success the limit is met again |
| `EncoderRate.LimitIsUnique` | webrtc/service.go:643-654 | the limit is determined by requested rate and estimates, whatever order the peers are visited in |
| `EncoderRate.FloorIsIdle` | webrtc/service.go:643-654 | with estimates that keep the estimator's bounds the floor never raises the limit above the slowest peer |
| `EncoderRate.LimitIsTracked` | webrtc/service.go:643-678 | a running encoder is set to the limit unless it is there or the limit is below the requested rate and within 250 Kbit/s or a twentieth |
| `EncoderRate.UpdatesExactly` | media/media.go:381-425 | an update succeeds if and only if permitted, in range, running, and taken by the encoder where it differs; a failed one changes nothing |
| `EncoderRate.SetBitrateIsChecked` | media/media.go:451-478 | a rate change is answered by the first check that fails and takes effect exactly if none does |
| `EncoderRate.RunsOnce` | media/media.go:250-300 | the service runs once; estimates, arrivals, departures and rechecks take effect at once |
| `EncoderRate.RunsKeep` | webrtc/service.go:643-690 | in every run recorded and actual rate are between 100 and the requested rate, and no SetBitrate call fails a range check |
| `EncoderRate.SyncIsLostExactly` | media/media.go:398-400 | one step separates recorded from actual rate if and only if it is a no-op update while limited that no rate change follows |
| `EncoderRate.RunsStayInSync` | webrtc/service.go:495-501 | in every run without such an update recorded and actual rate agree |
| `EncoderRate.NoOpUpdateForgets` | webrtc/service.go:495-501 | such a run exists: 10000 recorded, 9400 actual |
| `CodecCompat.CompatibleIsEquality` | webrtc/contracts.go:96-125 | compatibility with every other codec is equality if and only if the codec has no empty fmtp value |
| `CodecCompat.EqualIfCompatible` | webrtc/contracts.go:96-125 | a codec without empty values is compatible only with itself |
| `CodecCompat.CompatibleIsNotSymmetric` | webrtc/contracts.go:114-123 | with an empty value the direction of the check decides |
| `QualityGenerations.Service.FindStale` | webrtc/service.go:513-524 | the loop lists exactly the incompatible open peers other than the requester, each once |
| `QualityGenerations.Service.UpdateQuality` | webrtc/service.go:495-532 | the object lists and numbers stale peers as the specification does |
| `QualityGenerations.Service.ClosePeerForProfileChange` | webrtc/service.go:803-810 | a listed peer is closed exactly when its list is of the current generation |
| `QualityGenerations.CoverIsKeptExactly` | webrtc/service.go:495-532 | a step keeps every incompatible peer covered if and only if it is not an update that failed after the switch and left an uncovered one |
| `QualityGenerations.RunsKeepCover` | webrtc/service.go:495-532 | after successful updates and arrivals every open incompatible peer is about to close or on the current list |
| `QualityGenerations.NoneSurvives` | webrtc/control.go:402-424 | once the lists are processed each open peer is compatible, and equal to the profile when it negotiated no empty value |
| `QualityGenerations.ListsCanBeProcessed` | webrtc/service.go:803-810 | from every state checks and closes alone empty the lists, close every due peer and leave every other open |
| `QualityGenerations.RightnessIsKeptExactly` | webrtc/service.go:525-530 | a step makes the current list name a compatible peer if and only if it changes the profile without a new list while the list names a peer the new profile suits |
| `QualityGenerations.RunsCloseRightly` | webrtc/service.go:803-810 | in every run without such a step each peer the current list closes is incompatible |
| `QualityGenerations.ListsCloseOnlyIncompatible` | webrtc/service.go:803-810 | in every run a current list closes only incompatible peers while the profile is the one it was made for |
| `QualityGenerations.ReturningProfileStillCloses` | webrtc/service.go:525-530 | such a step happens: the profile returns and a compatible peer is closed |
| `QualityGenerations.HalfReturnStillCloses` | webrtc/service.go:507-511 | it happens too when the update back fails after the switch |
| `QualityGenerations.HalfUpdateLeavesPeer` | webrtc/service.go:507-511 | an update that fails after the switch leaves an incompatible peer that nothing closes |
| `Admission.Service.ReservePeer` | webrtc/service.go:692-705 | a closed or full service refuses; otherwise a fresh identity and one reservation |
| `Admission.Service.RegisterPeer` | webrtc/service.go:707-720 | a closed service refuses; the first peer activates the source |
| `Admission.Service.ReleaseReservation` | webrtc/service.go:722-730 | the last release of a closed service closes closeDone, once |
| `Admission.Service.RemovePeer` | webrtc/service.go:732-755 | removing the last peer deactivates the source; a second removal does nothing |
| `Admission.Service.Close` | webrtc/service.go:411-431 | the first call closes, signals if nothing is reserved and returns the peers to close |
| `Admission.PeerLife.GoOwned` | webrtc/peer.go:135-148 | a goroutine is counted before it starts and refused once the peer is closing |
| `Admission.PeerLife.CloseWith` | webrtc/peer.go:772-787 | only the first call closes; afterwards no goroutine can start |
| `Admission.PeerLife.FinishClose` | webrtc/peer.go:789-813 | after the last owned goroutine the peer is unlisted, its reservation given back, and only then done |
| `Admission.RunsKeep` | webrtc/service.go:692-755 | registered <= reservations <= MaxPeers; every reservation held or released once; source active exactly while open with a peer; closeDone once, exactly when closed with none reserved; done once, after all owned goroutines |
| `Admission.RefusedExactly` | webrtc/service.go:692-705 | in every run admission is refused if and only if the service is closed or exactly MaxPeers reservations are held; otherwise it makes one new reservation |
| `Admission.AdmittedIsRegistered` | webrtc/service.go:707-720 | an admitted peer of an open service is registered, the source active, and its goroutines accepted until it closes |
| `Admission.FailedIsReleased` | webrtc/peer.go:150-222 | a peer whose construction fails, or that meets a closed service, gives its reservation back unregistered |
| `Admission.ClosingCloses` | webrtc/service.go:411-431 | closing closes for good, deactivates the source and keeps peers until they close; a second close changes nothing |
| `Admission.DoneComesLast` | webrtc/peer.go:805-808 | a peer is done with the step after its reservation is given back, once |
| `Admission.OneCanLeave` | webrtc/peer.go:789-813 | from every reachable state a connection's own steps alone can give its reservation back |
| `Admission.ShutdownCanFinish` | webrtc/service.go:411-444 | from every reachable closed state own steps of the connections that hold a reservation reach the point where closeDone is closed |

## Left out

- Revocation callbacks of the input controller run outside its mutex; their effect is modelled in the lease handshake, the sequence number and cause they carry are not.
- The lease handshake, branch replacement, publisher and admission protocols are stepwise functions on a state value rather than objects, because their point is the interleaving of sections; pointer identity of channels and branches is a number.
- Floats are reals: rounding, NaN and infinities other than the overflow check of the scroll sum are not modelled. `math.Pow` is any function with the laws of a power of 1.08.
- SentRate.Ring.SentBitrate: buckets before 1970 and byte totals beyond the exact range of a float64 are not modelled.
- RtpTiming.TimestampsMoveForward: one binding per track, and produced times whose difference does not saturate.
- RtpTiming.VideoWriter.WriteSample: a failed packet write, which ends the peer, is not modelled.
- Generation and sequence counters are unbounded; their 64-bit wrap is not reached.
- NormalizeMIME's trimming and lower-casing are any function that leaves the supported types and the empty string alone; the Unicode tables are not modelled.
- ClipboardFraming.Receiver.OnBinary: hands a complete payload on; the ownership check and the acknowledgement that follow are not modelled.
- BranchSwitch.RunsKeep: assumes that a sink calls back no more after it was answered with an error flow.
- SampleSlot.ReferencesAreConserved: capture callbacks that return before storing, and buffers copied by the encoder, hold no reference in the model.
- EncoderRate.RunsKeep: estimates are read at one moment while the source reads them peer by peer; an encoder property that fails half set, and a media service that stops in the middle of an update, are not modelled.
- Admission.Service.Close: the five-second limit on waiting for closeDone and the replacement of an existing peer are not modelled.
- Local and remote ICE candidate queues: first-in first-out lists with no invariant beyond their order.
- Foreign code: GStreamer, PipeWire, libei, D-Bus, the WebRTC stack and its overuse detector; they appear as arbitrary, possibly failing collaborators.
- JSON and SDP decoding, configuration, the HTTP server, logging, profile templates and the browser client apart from clipboard framing: library behaviour or checks a single reading settles.
