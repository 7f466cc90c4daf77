# Verified models of the credential verifier and the QHY camera layer

The project models three parts of the repository and proves what they promise, over every
run and every input.

**The credential verifier** (`crates/rp-auth`). `VerifierProtocol` is a step relation: requests
look up the memo, subscribe, inspect the gate under its lock, claim it, join the flight of their
own tag, or park; the blocking KDF task of a claim outlives its request, may die at any point
before its verdict, and frees the gate through its drop guard; requests are cancelled at awaits;
a clock ticks. A run is any sequence of enabled steps. `VerifierInvariants` and `VerifierHistory`
carry what each step keeps, `VerifierTheorems` what follows, `VerifierQueue` and
`VerifierRefusal` when a request is refused and what the run that led to it looks like, and
`VerifierProgress` that every request can reach its verdict. `Memo` is the in-place memo,
`MemoHistory` proves that it refines a plain history of verdicts and lookups, and `Framing` that
the bytes the MAC covers determine the three fields. `VerifierShared` is the in-place shared
state, each locked operation proved to be the protocol moves it stands for. The KDF is a pure
function whose task may die; the MAC and the username digest are arbitrary functions assumed not
to collide on the credentials presented.

**Handles and SDK ownership** (`crates/qhyccd-rs`). `HandleCell` is the reader/writer cell around
the vendor's handle, with racing opens, calls, closes, clones and the last-drop close; the lock is
task-fair (a writer that has claimed it keeps new readers out) and the foreign open and close may
fail at will. `SdkLifecycle` is the process gate (flag, condvar,
`notify_one`), the order of Init, Scan, Close and Release, and camera clones that outlive the
`Sdk`, with a log of the foreign calls.

**The simulated camera** (`crates/qhyccd-rs`). `Exposure` is the exposure state machine with
readers that sleep outside the lock, and `ExposureTime` tells by the actions alone when a frame
comes out; `FrameGeometry` and `StarDrawing` write the frame's bytes in
place; `Noise` is the xorshift stream and its 64-bit scaling; `FilterWheel` goes from a typed or
raw command through encoding, settling and decoding to a read; `FilterWheelProbe` is the probe of
a list of cameras.

A class method or loop is proved against a function of the old state, and the theorems are about
that function. The code is followed to its edges: a positive store expires nothing, a raw wheel
code below `'0'` commands slot 0 because the fallback decode saturates, and open and close act on
a look at the open flag that may be stale.

## Model

| member | source | states |
|---|---|---|
| Framing.LittleEndianRoundTrip | crates/rp-auth/src/memo.rs:84-86 | the little-endian bytes of a number that fits read back as that number |
| Framing.LittleEndianDigit | crates/rp-auth/src/memo.rs:84-86 | byte k is the k-th digit to base 256 |
| Framing.UnframeUndoesFrame | crates/rp-auth/src/memo.rs:64-72 | any list of length-prefixed fields is read back exactly |
| Framing.TagInputInjective | crates/rp-auth/src/memo.rs:59-72 | equal MAC inputs mean equal username, password and stored hash |
| Framing.TagInputLayout | crates/rp-auth/src/memo.rs:64-72 | the domain, then username, password and stored hash, each behind its length |
| VerificationMemo.Memo.constructor | crates/rp-auth/src/memo.rs:116-123 | a new memo is empty |
| VerificationMemo.Memo.Expire | crates/rp-auth/src/memo.rs:166-176 | the idle positive slot is cleared and exactly the young negatives are retained, in order |
| VerificationMemo.Memo.Lookup | crates/rp-auth/src/memo.rs:129-149 | the full scan answers and leaves behind what the specification says; a hit refreshes the slot |
| VerificationMemo.Memo.Store | crates/rp-auth/src/memo.rs:154-164 | a positive verdict overwrites the slot and expires nothing; a negative one evicts the oldest beyond the capacity |
| MemoHistory.MemoRefinesHistory | crates/rp-auth/src/memo.rs:129-176 | under a monotone clock a lookup hits iff the tag is the latest positive with no idle gap of the TTL, else hits negatively iff it is among the last eight refutations and young |
| MemoHistory.RingStaysBounded | crates/rp-auth/src/memo.rs:154-164 | the ring stays within its capacity and sorted by time |
| MemoHistory.ProvedLifetime | crates/rp-auth/src/memo.rs:28 | a proved credential is remembered for fifteen idle minutes |
| MemoHistory.RefutedLifetime | crates/rp-auth/src/memo.rs:33 | a refuted one is remembered for five seconds |
| MemoHistory.EightAreRemembered | crates/rp-auth/src/memo.rs:37 | a refuted one survives seven more refutations and not the eighth |
| MemoHistory.EagerExpiryIsInvisible | crates/rp-auth/src/memo.rs:166-176 | expiring early changes no later answer, whatever is stored and looked up in between |
| MemoHistory.EagerExpiryShowsInTheRing | crates/rp-auth/src/memo.rs:154-158 | it can change a state: a positive store keeps an old negative that an expiry would have dropped |
| MemoHistory.OtherLookupsAreInvisible | crates/rp-auth/src/memo.rs:129-149 | looking up another tag changes no later answer, whatever is stored and looked up in between |
| MemoHistory.SlotAfter | crates/rp-auth/src/memo.rs:139-144 | every event keeps the slot at the latest positive and its last touch, or empty once that went idle |
| MemoHistory.RingAfter | crates/rp-auth/src/memo.rs:158-163 | every event keeps the ring a tail of all refutations that misses no young one |
| VerifierInvariants.SameTagSameCredential | crates/rp-auth/src/verifier.rs:484-489 | tags that match are tags of one credential |
| VerifierInvariants.StepKept | crates/rp-auth/src/verifier.rs:219-277 | every step of every request and flight keeps the invariant: sound memo, one lock holder, one live guard that carries the slot's id, honest verdicts |
| VerifierInvariants.RunKept | crates/rp-auth/src/verifier.rs:219-455 | the invariant holds in every reachable state |
| VerifierHistory.StepPast | crates/rp-auth/src/verifier.rs:339-356 | every step keeps the history: each claim missed the memo under the slot lock, each finished flight stored before it freed the gate, flights are ordered in time |
| VerifierHistory.RunPast | crates/rp-auth/src/verifier.rs:339-356 | both invariants hold in every reachable state |
| VerifierTheorems.VerdictsRefineDirectCheck | crates/rp-auth/src/verifier.rs:219-277 | in every run Allow is answered only if the direct check admits the credential, Deny only if it does not or the KDF task waited on died |
| VerifierQueue.RunTrail | crates/rp-auth/src/verifier.rs:239-275 | in every run a queued request read the clock exactly once, and one about to be judged has just inspected the gate and found another tag |
| VerifierQueue.BusyIsHonest | crates/rp-auth/src/verifier.rs:245-275 | in the run of a refused request: the one action at which it read the clock, a judgement at least the gate wait later, and, as its last move before that, an inspection that found another tag (with a key, another credential) in flight |
| VerifierRefusal.RefusedIffOverdue | crates/rp-auth/src/verifier.rs:245-275 | in every run a judgement refuses a request iff the gate wait has passed since the request read the clock, parks it until then otherwise, and counts exactly the refusals |
| VerifierRefusal.OverdueIsRefused | crates/rp-auth/src/verifier.rs:255-273 | a parked request whose wait is over, with another tag still in the slot, is refused by its own next three moves: timeout, inspection, judgement |
| VerifierRefusal.ReadsClockOnce | crates/rp-auth/src/verifier.rs:239-246 | no pass of the loop begins the wait anew |
| VerifierRefusal.RefusalsAreCounted | crates/rp-auth/src/verifier.rs:457-461 | over every run the count of refusals is the number of requests answered Busy |
| VerifierTheorems.OwnTagIsJoined | crates/rp-auth/src/verifier.rs:330-338 | with a key an inspection joins the flight in the slot iff it is for the request's own credential, and never refuses it |
| VerifierTheorems.FlightsAreQuoted | crates/rp-auth/src/verifier.rs:389-416 | every verdict taken from a flight is the one its task ended with; a dead task denies |
| VerifierTheorems.JoinedIsNeverRefused | crates/rp-auth/src/verifier.rs:405-416 | a request that joined a flight is, in every continuation, still joined, cancelled, or answered with the verdict that flight ended with, never Busy |
| VerifierTheorems.OneGuardOneSlot | crates/rp-auth/src/verifier.rs:117-129 | the slot is occupied exactly while one live guard carries its id; at most one verification is in flight |
| VerifierTheorems.OnlyTheTaskFreesTheGate | crates/rp-auth/src/verifier.rs:374-400 | only the flight's own guard frees the gate, after its task ended, its verdict published and, with a key, stored |
| VerifierTheorems.PublishReachesTheChannel | crates/rp-auth/src/verifier.rs:449-453 | a verdict is never sent on a channel without a receiver |
| VerifierTheorems.GateDrains | crates/rp-auth/src/verifier.rs:306-319 | the holder alone frees the gate in at most six steps: no death or cancellation wedges it |
| VerifierTheorems.NoLostWakeup | crates/rp-auth/src/verifier.rs:239-275 | a parked request with no unseen announcement saw a flight still in the slot, or cleared and yet to be announced |
| VerifierProgress.SomeoneHelps | crates/rp-auth/src/verifier.rs:219-277 | in every state a step of the request, of the lock holder or of the flight it waits for brings an unfinished request strictly closer to its verdict |
| VerifierProgress.EveryRequestCanFinish | crates/rp-auth/src/verifier.rs:219-416 | every unfinished request has a path of at most 31 such steps to its verdict, and is not refused on it once it holds the gate or waits for a flight |
| VerifierTheorems.MissMeansLeft | crates/rp-auth/src/memo.rs:154-176 | a lookup that misses a stored verdict means it was overwritten, idle, old or pushed out |
| VerifierTheorems.KdfRunsAreSeparated | crates/rp-auth/src/verifier.rs:330-367 | with a key two KDF runs for one tag are separated by that verdict leaving the memo or by the first task dying |
| VerifierRing.RingNeverRepeats | crates/rp-auth/src/verifier.rs:434-448 | in every run the negative tags are pairwise distinct and none is the positive tag |
| VerifierShared.Shared.constructor | crates/rp-auth/src/verifier.rs:167-211 | a new verifier has an empty memo and a free gate |
| VerifierShared.Shared.Lookup | crates/rp-auth/src/verifier.rs:321-323 | the fast lookup is the protocol's fast lookup |
| VerifierShared.Shared.ClaimSlot | crates/rp-auth/src/verifier.rs:330-367 | one locked section joins, refuses, answers from the memo, or claims and publishes the tag, as the protocol's moves do |
| VerifierShared.Shared.ReleaseSlot | crates/rp-auth/src/verifier.rs:306-319 | clears only its own registration and announces exactly if it did |
| VerifierShared.Shared.NoteRefusal | crates/rp-auth/src/verifier.rs:457-461 | counts the refusal, as the protocol's judgement does |
| VerifierShared.Shared.RunKdf | crates/rp-auth/src/verifier.rs:422-455 | the verdict is the direct check's, stored before it is published |
| HandleCellProtocol.ActionKept | crates/qhyccd-rs/src/camera.rs:492-635 | every step of every call, open, close, clone and drop keeps the cell's invariant |
| HandleCellProtocol.OpenIsTheCell | crates/qhyccd-rs/src/camera.rs:557-594 | outside a write lock the SDK holds open exactly the cell's handle, and never more than one |
| HandleCellProtocol.NoCloseOverlapsACall | crates/qhyccd-rs/src/camera.rs:538-553 | during a call its handle is live and no write lock is held; another call can start exactly while no open or close has queued |
| HandleCellProtocol.NoReaderJoins | crates/qhyccd-rs/src/camera.rs:538-594 | while an open or close queues no call joins those inside, and once they have returned it can take the lock |
| HandleCellProtocol.QueuedDrains | crates/qhyccd-rs/src/camera.rs:580-594 | the returns of exactly the calls inside, one each, let a queued open or close have the lock |
| HandleCellProtocol.OnlyLiveHandlesAreClosed | crates/qhyccd-rs/src/camera.rs:580-635 | every close is asked for a handle the SDK holds open, the last drop's included |
| HandleCellProtocol.EveryHandleIsAccountedFor | crates/qhyccd-rs/src/camera.rs:557-635 | every handle issued is open or closed exactly once; after the last drop only one whose final close failed is left |
| HandleCellProtocol.AnswersAreHonest | crates/qhyccd-rs/src/camera.rs:538-594 | in every run an operation ended at one moment with an answer that was so then: opens and calls succeed iff the cell was filled, closes iff it was empty, and the SDK is blamed exactly when it refused |
| HandleCellProtocol.CallsEnter | crates/qhyccd-rs/src/camera.rs:538-553 | a call holds the read lock with the cell's handle until it returns, or ends at once without one |
| HandleCellProtocol.LooksFirst | crates/qhyccd-rs/src/camera.rs:755-810 | the look before the lock ends an open or close exactly if nothing is left to do |
| HandleCellProtocol.LastDropCloses | crates/qhyccd-rs/src/camera.rs:617-635 | after the last clone the held handle is closed, and left behind only if the SDK refused |
| HandleCellProtocol.WriterCanMove | crates/qhyccd-rs/src/camera.rs:557-594 | whoever claimed the write lock can move, or a call it waits for can return |
| HandleCellProtocol.HandleCell.OpenWith | crates/qhyccd-rs/src/camera.rs:557-573 | the SDK is asked only by an empty cell; the answer is success iff the cell ends up filled and failure iff the SDK was asked and refused; the moves are the protocol's |
| HandleCellProtocol.HandleCell.CloseWith | crates/qhyccd-rs/src/camera.rs:580-594 | a failed close keeps the handle, an empty cell does not reach the SDK, and the answer is success iff the cell ends up empty |
| HandleCellProtocol.HandleCell.DropLast | crates/qhyccd-rs/src/camera.rs:617-635 | the last drop takes the handle out and asks for its close, whatever the answer |
| HandleCellProtocol.HandleCell.constructor | crates/qhyccd-rs/src/camera.rs:499-503 | a fresh cell is empty |
| SdkLifecycle.RunGate | crates/qhyccd-rs/src/sdk_gate.rs:36-64 | in every run the flag is up exactly while one thread is inside, and a free gate with a sleeper has a woken waiter or a releaser yet to notify |
| SdkLifecycle.AtMostOneSdk | crates/qhyccd-rs/src/sdk_gate.rs:36-64 | two threads are never inside the gate |
| SdkLifecycle.TakenIffFree | crates/qhyccd-rs/src/sdk_gate.rs:37-56 | in every run a look takes the gate iff no thread is inside; a blocking one sleeps otherwise, a trying one is refused |
| SdkLifecycle.SleepersAreServed | crates/qhyccd-rs/src/sdk_gate.rs:37-64 | when the gate is free and a thread sleeps, a step that leads to a wake is enabled |
| SdkLifecycle.SdkGate.constructor | crates/qhyccd-rs/src/sdk_gate.rs:29-34 | a new gate is free |
| SdkLifecycle.SdkGate.Look | crates/qhyccd-rs/src/sdk_gate.rs:37-45 | one look of acquire takes a free gate and sleeps on a held one |
| SdkLifecycle.SdkGate.TryTake | crates/qhyccd-rs/src/sdk_gate.rs:48-56 | takes the gate exactly if it is free |
| SdkLifecycle.SdkGate.Free | crates/qhyccd-rs/src/sdk_gate.rs:59-64 | a dropped guard lowers the flag before it notifies |
| SdkLifecycle.LogKept | crates/qhyccd-rs/src/sdk.rs:193-204 | every step keeps the SDK initialised exactly while a thread answers for it |
| SdkLifecycle.OneReleasePerInit | crates/qhyccd-rs/src/sdk.rs:243-283 | between a successful Init and the next Init there is exactly one Release, failed scans included |
| SdkLifecycle.OnlyScansMakeSdks | crates/qhyccd-rs/src/sdk.rs:193-204 | an `Sdk` comes only from a scan that succeeded, with its own closed cameras; a failed Init gives the gate back, a failed scan releases first |
| SdkLifecycle.RunOwns | crates/qhyccd-rs/src/sdk.rs:277-283 | in every run the cameras of a living `Sdk` exist and are its own |
| SdkLifecycle.BelongsIffReferred | crates/qhyccd-rs/src/sdk.rs:277-283 | a camera belongs to an `Sdk` exactly while one still refers to it: a dropped `Sdk` gives up all of them |
| SdkLifecycle.TeardownCloses | crates/qhyccd-rs/src/sdk.rs:498-502 | a step of the teardown calls Close exactly if its camera is open, and leaves it closed unless the SDK refused |
| SdkLifecycle.NoCloseAfterRelease | crates/qhyccd-rs/src/sdk.rs:481-509 | if the SDK refused no close of the teardown and nobody reopened the camera after it was visited, the camera is closed at the Release and no Close of it follows |
| SdkLifecycle.HandlesAreTracked | crates/qhyccd-rs/src/camera.rs:580-635 | over every run a reachable camera is open iff the SDK holds a handle for it, and the last call about an unreachable one was a close |
| SdkLifecycle.CallsComeInTurn | crates/qhyccd-rs/src/camera.rs:557-635 | over every run the SDK is asked to open only what it does not hold and to close only what it does |
| Noise.XorshiftInvertible | crates/qhyccd-rs/src/simulation.rs:789-796 | a draw permutes the 32-bit states |
| Noise.XorshiftNonzero | crates/qhyccd-rs/src/simulation.rs:789-796 | only the zero state draws zero |
| Noise.KnownDraws | crates/qhyccd-rs/src/simulation.rs:789-796 | the first draws of the stream that starts at 1 |
| Noise.ProductFits | crates/qhyccd-rs/src/simulation.rs:805-814 | the product stays below 2^64 and its high word below the span |
| Noise.CentredSpans | crates/qhyccd-rs/src/simulation.rs:812-815 | samples grow with the draw from one end of the interval to the other |
| Noise.StreamNeverDies | crates/qhyccd-rs/src/simulation.rs:773-796 | from every seed the state is nonzero after any number of draws |
| Noise.EveryValueIsDrawn | crates/qhyccd-rs/src/simulation.rs:812-815 | every value of the interval is the sample of some nonzero state |
| Noise.PixelNoise.constructor | crates/qhyccd-rs/src/simulation.rs:773-787 | a negative range is no noise, and the state starts nonzero |
| Noise.PixelNoise.NextU32 | crates/qhyccd-rs/src/simulation.rs:789-796 | a draw is nonzero and keeps the source valid |
| Noise.PixelNoise.NextSigned | crates/qhyccd-rs/src/simulation.rs:812-815 | a sample lies within the range, and neither cast loses anything |
| FrameGeometry.NewFrame | crates/qhyccd-rs/src/simulation.rs:890-902 | a frame exists iff it has bytes and they can be addressed |
| FrameGeometry.PixelAtInFrame | crates/qhyccd-rs/src/simulation.rs:907-913 | a pixel is found iff its coordinate is in the frame |
| FrameGeometry.PixelsAreDisjoint | crates/qhyccd-rs/src/simulation.rs:907-913 | distinct pixels share no byte |
| FrameGeometry.EveryByteHasAPixel | crates/qhyccd-rs/src/simulation.rs:876-902 | the pixels cover the whole buffer |
| FrameGeometry.BlankOddEdges | crates/qhyccd-rs/src/simulation.rs:931-948 | writes zero to the blanked bytes of any buffer and leaves every other byte |
| FrameGeometry.BlankedPixels | crates/qhyccd-rs/src/simulation.rs:916-948 | the blanked bytes are exactly those of the last row of an odd height and the last column of an odd width |
| StarDrawing.Brighten8 | crates/qhyccd-rs/src/simulation.rs:1214-1216 | every byte of the pixel gets the saturating sum, no other byte changes |
| StarDrawing.Brighten16 | crates/qhyccd-rs/src/simulation.rs:863-869 | every little-endian pair of the pixel gets the saturating sum, no other byte changes |
| StarDrawing.DrawStar | crates/qhyccd-rs/src/simulation.rs:1175-1257 | the loops brighten each in-frame pixel of the disc exactly once and no other, with no wrap into a neighbouring row |
| StarDrawing.BrightenedIsBrighter | crates/qhyccd-rs/src/simulation.rs:861-869 | a sample of either width becomes the sum if that fits and white if not; half a sample stays |
| StarDrawing.DiscIsByDistance | crates/qhyccd-rs/src/simulation.rs:1205-1207 | whatever real number is the distance from the centre, the disc compares it with the size |
| Exposure.SimulatedCamera.constructor | crates/qhyccd-rs/src/simulation.rs:502-505 | a new camera is closed and holds no image |
| Exposure.SimulatedCamera.StartExposure | crates/qhyccd-rs/src/simulation.rs:612-653 | image, geometry and start time are set together |
| Exposure.SimulatedCamera.StopExposure | crates/qhyccd-rs/src/simulation.rs:657-660 | a stop keeps the image |
| Exposure.SimulatedCamera.AbortExposure | crates/qhyccd-rs/src/simulation.rs:664-668 | an abort discards image and metadata |
| Exposure.SimulatedCamera.Deliver | crates/qhyccd-rs/src/camera.rs:1870-1893 | copies the frame to the front of the buffer, leaves the rest, clears the exposure; a short buffer changes nothing |
| Exposure.NextKept | crates/qhyccd-rs/src/simulation.rs:572-668 | every step keeps the exposure invariant |
| Exposure.ImageAndMetadataTogether | crates/qhyccd-rs/src/camera.rs:1870-1893 | in every run image and metadata are present together with matching length, and the missing-metadata error never occurs |
| Exposure.FramesAreConserved | crates/qhyccd-rs/src/camera.rs:1850-1902 | over every run each frame comes out exactly as often as it is recorded delivered, with the pixels and geometry of its start |
| Exposure.RecordsAreStarts | crates/qhyccd-rs/src/simulation.rs:612-653 | exactly the answered starts add a record, and a settled record never changes |
| Exposure.NoFrameWithoutAStart | crates/qhyccd-rs/src/camera.rs:834-836 | once the image is gone no run without a start gets a frame out |
| Exposure.ImageIsGone | crates/qhyccd-rs/src/camera.rs:816-840 | abort, a successful close and a delivery leave no image |
| ExposureTime.RunAgrees | crates/qhyccd-rs/src/simulation.rs:612-668 | over every run the device's openness, settings, clock and held frame are what the actions alone say |
| ExposureTime.DeliveredOnlyWhenDone | crates/qhyccd-rs/src/camera.rs:1855-1893 | a frame comes out only of the last answered start, with its pixels and the geometry asked for, once the exposure time asked for last has passed since or a stop was answered |
| ExposureTime.HeldIsDelivered | crates/qhyccd-rs/src/camera.rs:1855-1901 | conversely a held frame is read exactly when that is so and there is room; a short buffer is told the size; until then the reader sleeps no longer than until it is due |
| ExposureTime.OtherwiseNothing | crates/qhyccd-rs/src/camera.rs:1852-1876 | with no frame held there is no image, and a closed or absent camera does not answer |
| Exposure.FateRun | crates/qhyccd-rs/src/camera.rs:1850-1902 | in every continuation a held frame is lost only to a start, abort or close, and delivered only to a readout that returns it |
| Exposure.ShortBufferLosesNothing | crates/qhyccd-rs/src/camera.rs:1870-1886 | after a too-small answer, in every continuation the frame is lost to a start, abort or close, was returned, or is still returned exactly by a readout with the room the answer named |
| Exposure.SleepIsShort | crates/qhyccd-rs/src/simulation.rs:584-609 | the saturated remainder never oversleeps the exposure, and one sleep is enough if its duration fits 32 bits |
| FilterWheel.SlotCodesRoundTrip | crates/qhyccd-rs/src/camera.rs:72-117 | exactly sixteen slots have a code, which decodes to the slot |
| FilterWheel.SlotCodesAreDistinct | crates/qhyccd-rs/src/camera.rs:72-90 | codes are distinct and none is the moving code |
| FilterWheel.CommandableCodes | crates/qhyccd-rs/src/camera.rs:83-87 | which raw codes command a slot and which slot each names, and that the moving code names none |
| FilterWheel.CommandReplies | crates/qhyccd-rs/src/camera.rs:2554-2561 | which commands are refused and with which error, and that a refused one moves nothing |
| FilterWheel.SimulatedWheel.constructor | crates/qhyccd-rs/src/simulation.rs:506-512 | a new wheel rests on slot 0 |
| FilterWheel.SimulatedWheel.Command | crates/qhyccd-rs/src/simulation.rs:700-713 | a slot without a code is refused and changes nothing |
| FilterWheel.SimulatedWheel.Poll | crates/qhyccd-rs/src/simulation.rs:720-729 | the settle counts down and the last poll lands the move |
| FilterWheel.SimulatedWheel.GetCode | crates/qhyccd-rs/src/camera.rs:2171-2186 | a read encodes the status, and only an answering camera is polled |
| FilterWheel.SimulatedWheel.SetCode | crates/qhyccd-rs/src/camera.rs:2303-2311 | a raw code is decoded and commanded |
| FilterWheel.SimulatedWheel.Position | crates/qhyccd-rs/src/camera.rs:2537-2541 | a typed read decodes what the raw read encoded |
| FilterWheel.SimulatedWheel.SetPosition | crates/qhyccd-rs/src/camera.rs:2554-2561 | a typed command is encoded and commanded, or refused before it reaches the camera |
| FilterWheel.WheelIsItsHistory | crates/qhyccd-rs/src/simulation.rs:700-729 | position, target and settle count are determined by the plain history of moves and reads |
| FilterWheel.ReadsRefineHistory | crates/qhyccd-rs/src/camera.rs:2537-2541 | after every run an answered read says what the plain history says and never names an invalid slot |
| FilterWheel.MoveSettles | crates/qhyccd-rs/src/simulation.rs:715-729 | an unsuperseded command to a new slot reads Moving, Moving, then the slot forever; to its own slot, the slot at once |
| FilterWheelProbe.Sdk.constructor | crates/qhyccd-rs/src/sdk.rs:277-283 | a new `Sdk` lists no filter wheel |
| FilterWheelProbe.Sdk.Open | crates/qhyccd-rs/src/camera.rs:755-792 | opening an open camera does nothing; a failed open leaves it closed; a successful one resets the ask count |
| FilterWheelProbe.Sdk.Close | crates/qhyccd-rs/src/camera.rs:807-841 | a failed close keeps the camera open |
| FilterWheelProbe.Sdk.IsCfwPluggedIn | crates/qhyccd-rs/src/camera.rs:2383-2392 | a closed or absent camera gives no answer and does not count the query; a simulated one counts it, saturating at 32 bits, and says yes iff it has slots and the count exceeds its misses |
| FilterWheelProbe.Sdk.AskForWheel | crates/qhyccd-rs/src/sdk.rs:119-140 | the loop asks as the specification does |
| FilterWheelProbe.AsksUntilNotNo | crates/qhyccd-rs/src/sdk.rs:119-140 | any camera is asked until the first query not answered no, or as often as allowed; the asking ends right after it, and finds a wheel iff it was answered yes |
| FilterWheelProbe.RealFoundIff | crates/qhyccd-rs/src/sdk.rs:119-140 | a real camera is found to have a wheel iff, on the bus, it says no until it says yes in time |
| FilterWheelProbe.ProbeIs | crates/qhyccd-rs/src/sdk.rs:111-146 | the outcome of a probe of any camera: which failure is which error, and yes iff one of three queries is answered yes after noes |
| FilterWheelProbe.Sdk.CfwProbe | crates/qhyccd-rs/src/sdk.rs:111-146 | open, ask, close in place, with the errors of the open and the close |
| FilterWheelProbe.Sdk.ProbeFilterWheels | crates/qhyccd-rs/src/sdk.rs:373-396 | the loop over the ids does what the specification of the list says |
| FilterWheelProbe.ProbeKeepsOpen | crates/qhyccd-rs/src/sdk.rs:92-146 | a probe leaves the camera as open as it was unless its own close failed |
| FilterWheelProbe.FoundIff | crates/qhyccd-rs/src/sdk.rs:119-140 | a simulated camera is found to have a wheel iff it stays on the bus up to a query by which it has missed enough |
| FilterWheelProbe.CleanProbe | crates/qhyccd-rs/src/camera.rs:2383-2392 | opened by the probe, with nothing failing while the probe lasts, a camera yields yes iff it has slots and fewer misses than attempts |
| FilterWheelProbe.OneOutcomeEach | crates/qhyccd-rs/src/sdk.rs:373-396 | one outcome per id, in order |
| FilterWheelProbe.WheelsAreTheYeses | crates/qhyccd-rs/src/sdk.rs:381-389 | the wheels only grow, are distinct, and are exactly those some probe answered yes for |
| FilterWheelProbe.CamerasAreKept | crates/qhyccd-rs/src/sdk.rs:376-396 | cameras keep id, place and device, and one shadowed by an equal id is not touched |
| FilterWheelProbe.OpenUnlessCloseFailed | crates/qhyccd-rs/src/sdk.rs:92-100 | a camera is open afterwards iff it was before or a probe of it failed to close it |
| FilterWheelProbe.UnknownIff | crates/qhyccd-rs/src/sdk.rs:376-377 | an id is refused as unknown iff no camera has it |
| FilterWheelProbe.CleanList | crates/qhyccd-rs/src/sdk.rs:373-396 | each time a closed simulated camera is listed it gets the outcome its configuration deserves if nothing fails while that probe lasts and its own earlier closes succeeded, whatever the other cameras do |
| FilterWheelProbe.ProbingInStages | crates/qhyccd-rs/src/sdk.rs:373-396 | probing two lists one after the other is probing their concatenation |

## Left out

- Argon2, BLAKE2b, base64, the OS random source, zeroizing and constant-time comparison: foreign code or not functional behaviour; the KDF, the MAC and the digest are parameters.
- MAC and digest collisions: assumed away on the credentials presented, since no 32-byte tag is injective on all inputs.
- `stored_hash_usable`, the decoy hash and logging in the verifier: only the boolean enters the model. The HTTP middleware around the verdict is header plumbing.
- Wrap-around of the 64-bit ids and of the `freed` generation, and the upper end of the clock: they are unbounded naturals.
- The verifier's two clocks (the runtime's and the system's) are one monotone clock, read at the moment of the step.
- The order in which a finished task drops its guard and its sender: every order is a run.
- Fields of 2^64 bytes and more: their length prefix saturates, and the framing promises nothing for them.
- The foreign arms of `Camera`: only their success or failure is modelled, at will, inside open, call and close.
- The order in which several opens and closes that wait for the handle cell's lock get it: any of them may be next.
- Spurious condvar wakeups: the condvar used has none.
- Floating point: a star's falloff is any function of the offset from its centre, the disc test is the exact comparison of squares, and quantization of a control value to a wheel code or a duration is left out, so a raw code is any natural number.
- Row-parallel image generation, patterns, cooling ramps, live mode, regions of interest and readout modes: an exposure's pixels are any bytes of the length its geometry names.
- The step inside `get_single_frame` between looking whether the exposure is done and asking how long is left: it is one look at one moment.
- Other threads during a filter-wheel probe, and the sleep between its queries: bus and vendor library may change at every call instead.
- `filter_wheel.rs`, `types.rs`, `error.rs`, `quantize.rs`, control tables, process spawning, scripts and catalogue fetchers: thin wrappers, finite tables or I/O.
