# NanoDesk: verified models of its protocols and kernels

NanoDesk is a remote desktop for Windows: a host engine that streams its screen and injects input, a client
engine that shows it, and a signaling server with a relay. Between the system calls sit state machines and
array loops whose promises are about whole runs. This project models those parts in Dafny 4.11 and proves them.

| file | what it models |
|---|---|
| `Uploads.dfy`, `Receiver.dfy`, `Accounting.dfy`, `Receipt.dfy`, `Transfer.dfy` | the file transfer: naming of received files, the receiver, what many receivers share, when a message has which effect, and the two-party protocol over its channels |
| `Desktop.dfy` | the control lease, who may inject, which keys are held, tokens and kicks |
| `Auth.dfy` | the password manager and its login throttle |
| `Video.dfy`, `Gates.dfy` | the two keyframe scans and the client's shared queue; the host's queues, and both in a row |
| `Fragments.dfy` | fragmentation and reassembly on the control channel |
| `Limiter.dfy`, `Signaling.dfy`, `Relay.dfy`, `Registry.dfy` | the signaling server: rate limits, links, relay quota, device numbers |
| `Pixels.dfy`, `Dib.dfy` | the colour conversions of encoder and decoder, and pictures on the clipboard |
| `Prelude.dfy`, `Grid.dfy`, `Times.dfy` | shared types and facts |

How the models are written:

- What the program keeps in an object is a class here, with the same fields. Each method's contract equates the
  new state with a specification function of the old one. The lemmas are about runs of those functions, and those
  named `…Exactly` say when a step has which effect without naming the function that specifies it.
- A lock-protected operation is one step. Time is an integer that never goes back where a property needs that.
  Tokens, session names and transfer identifiers are fresh values. Every system call answers as it likes.
- Rows of a buffer start at `Grid.Offset(y, width)`, which `Grid.OffsetIsProduct` shows to be the program's
  `y * width`.

Where the code does not do what it or its documentation promises, a lemma gives an input and another the exact
condition:

- `web/README.md` line 17 promises five failed logins a minute. The counting window starts at its first failure, so
  a minute can see up to eight (`Auth.ThrottleBoundIsReached`); it keeps to five unless the key's window began less
  than a minute before it and counts at most three (`Auth.MinuteExactly`).
- The test that a file header belongs to the present batch compares its identifier with the one that the same header
  has just set, so only a header of exactly 4096 bytes, or with an identifier that is not 32 characters long, can
  fail it (`Accounting.ForeignFileIsOpened`, `Accounting.ForeignHeaderAccepted`).
- The Standard role is to be kept from Ctrl+Shift+Esc and Ctrl+Alt+Del in every order of keys. A paste and a window
  switch press a modifier without asking the guard (`Desktop.PasteCompletesCombination`,
  `Desktop.ExposedExactly`, `Desktop.StandardExposedExactly`).
- A frame over 32 MiB, or a close, leaves a session's gate open although its last frame was not passed on
  (`Video.OversizedFrameLeavesGateOpen`, `Video.ClosedSessionForgetsGate`, `Video.ContiguousExactly`,
  `Video.OpenGateExactly`).
- Host and client differ on what a keyframe is (`Video.KeyTestsCompared`), so bare parameter sets five or more
  places behind a keyframe can make the client show what it cannot decode
  (`Gates.ParameterSetsBreakComposition`, `Gates.CompositionExactly`).
- The bitmap reader rejects a nonzero color-count word, which the writer never sets
  (`Dib.UnluckyIsRejected`, `Dib.DibRoundTrip`).

## Model

| member | source | states |
|---|---|---|
| Transfer.SuccessMeansCommitted | app/engine/files.go:202-390 | Over every interleaving of sender, receiver, both channels, cancels, timeouts, revocations, full slots, lost replies and failing system calls: a transfer that ended with success has had each path committed once, in order, with exactly the bytes read |
| Transfer.StaleAcksNeverCount | app/engine/files.go:298-390 | In every reachable state only an acknowledgement made for the file the sender is at can move it: none of the transfer is under way at its start or when a file is begun, none that says saved when a file ends, and whoever hears saved finds exactly that file committed |
| Transfer.CommitsNeverCollide | core/desktop/storage.go:42-71 | Over every run each commit lands on a name that was not there, commits never share a name, and the entries from before the run and earlier commits keep their contents |
| Transfer.EntriesSurvive | core/desktop/storage.go:42-71 | Whatever is in the directory at any moment of a run, whoever put it there, keeps its contents for the rest of the run |
| Transfer.StepKeepsInv | app/engine/files.go:68-390 | Every step of either end or a channel keeps the invariant that ties the sender's phase to what is in flight, in the open file and committed |
| Transfer.CalmBatchSucceeds | app/engine/files.go:202-276 | When nothing fails, every batch of up to a hundred files of any contents, under legal names, within the limit and with room in the directory, ends with the success status |
| Uploads.CandidateInjective | core/desktop/storage.go:46-56 | The numbered names tried for one file are pairwise different |
| Uploads.CommitNeverOverwrites | core/desktop/storage.go:42-71 | A commit takes the first free name and none that exists; with fewer entries than tries and no refusal it succeeds |
| Uploads.Folder.CommitUpload | core/desktop/storage.go:42-71 | The loop returns that destination, stores the content there and changes nothing else |
| Receiver.FileReceiver.Message | app/engine/files.go:68-201 | One message moves fields, slots and directory to the specified outcome, on every error path too |
| Receiver.FileReceiver.Open | app/engine/files.go:89-154 | A header: batch limits, file limits, slot, temporary file, with what each refusal leaves behind |
| Receiver.FileReceiver.Write | app/engine/files.go:155-169 | A chunk is appended whole, or the file is given up |
| Receiver.FileReceiver.Commit | app/engine/files.go:170-194 | The end marker commits exactly a complete file and always gives the slot back |
| Receiver.FileReceiver.Cleanup | app/engine/files.go:52-66 | Closes, stops the timer and gives back the slot exactly if one was held |
| Receiver.FileReceiver.Watchdog | app/engine/files.go:141-153 | A callback for another file, or one that comes too early, changes nothing |
| Accounting.AccountsBalance | app/engine/files.go:52-200 | Over every run of any number of receivers: slot held exactly while a file is open, at most four open, a release never blocks, written plus remaining is the declared size, charged plus left never exceeds the batch total, which its limit allows |
| Accounting.StepKeepsInv | app/engine/files.go:52-200 | Each message, watchdog and closing keeps those balances |
| Accounting.ForeignHeaderAccepted | app/engine/files.go:72-113 | For every authorised readable opening header, whatever its transfer: accepted exactly when it is of the present transfer or sets the transfer itself, and the batch's numbers, the name, a slot and the temporary file allow it |
| Accounting.ForeignFileIsOpened | app/engine/files.go:72-154 | A run: a file of transfer B is opened under the batch of transfer A |
| Receipt.CommitsExactly | app/engine/files.go:170-194 | Over every run of any number of receivers: a step changes the directory if and only if it ends a file that is as long as it was declared, for somebody who may transfer on entry and still may after the flush, under a name that can be committed and with a candidate free before any refusal; it adds just that file under the first free name |
| Receipt.FilesGrowExactly | app/engine/files.go:89-169 | Over every run: a file is opened, or gains contents, exactly by an authorised header within all limits or an authorised chunk within the declared size that reached the disk |
| Receipt.AnsweredExactly | app/engine/files.go:68-201 | Each acknowledgement is sent exactly when it is due, an error in all other cases, and silence in the cases that say nothing |
| Receipt.RefusalEndsFile | app/engine/files.go:68-201 | A message of somebody who may not transfer any more ends the open file uncommitted, and a cancel ends the whole batch |
| Receipt.WatchdogGivesUp | app/engine/files.go:141-153 | The watchdog gives up exactly the file it was armed for, after half a minute of silence |
| Desktop.HeldByController | core/desktop/hub.go:305-420 | After every run, no controller means nothing is held, and whatever is held was pressed by the present controller since control last changed hands |
| Desktop.StepKeepsInv | core/desktop/hub.go:305-1005 | Acquire, renew, takeover, release, expiry, unregister, kick, re-grant, recovery and every command keep that |
| Desktop.InjectionsAreEntitled | core/desktop/hub.go:698-1005 | Whatever is injected is injected by the controller, who at the acquire step was registered, authenticated, Standard or above, with a live token and no local activity |
| Desktop.KickedNeverInject | core/desktop/hub.go:336-361 | After a kick, nobody who was there ever injects again |
| Desktop.GoneNeverInjects | core/desktop/hub.go:305-334 | A client taken off the register never injects again |
| Desktop.DeadNeverInjects | core/auth/auth.go:424-435 | A token that has died is never again behind an injection |
| Desktop.RevokedNeverInject | core/auth/auth.go:424-435 | After a revocation of everything each injection is made under a token issued later |
| Desktop.LeaseRespected | core/desktop/hub.go:364-405 | While a lease runs, control passes directly only from below Admin to an entitled Admin |
| Desktop.BlockedExactly | core/input/input.go:406-424 | The guard stops exactly the press that completes a restricted combination, in any order of keys |
| Desktop.KeyCommandStaysUnrestricted | core/desktop/hub.go:811-829 | No key command of a Standard user makes a restricted combination held |
| Desktop.ExposedExactly | core/desktop/hub.go:698-1005 | A restricted combination is held at some moment of a Standard sender's command, before, between or after its key events, if and only if the command reaches its injections, the sender had control already, and what it held is one or becomes one with the modifier a paste or a window switch presses first |
| Desktop.StandardExposedExactly | core/input/input.go:405-424 | Over every run: that happens somewhere if and only if some Standard controller pastes, or switches windows, while it holds the rest of a combination |
| Desktop.ReachesExactly | core/desktop/hub.go:698-1005 | An input command of an authenticated sender gets as far as its injections if and only if the sender is entitled and control is free, lapsed, its own, or an Admin takes it from below |
| Desktop.ButtonExactly | core/input/input.go:186-231 | A button command that gets control injects exactly if there is such a button and the system takes it; a press as a press, a release as a release, held accordingly, everything else as after the acquire |
| Desktop.KeyExactly | core/desktop/hub.go:811-829 | A key command likewise, exactly if a Standard sender completes no restricted combination with it |
| Desktop.PointerExactly | core/desktop/hub.go:698-1005 | Moves, wheels and text inject their own kind and hold nothing |
| Desktop.PasteExactly | core/desktop/hub.go:881-902 | A paste that the system takes is Ctrl and V down and both up again in reverse, and leaves neither held |
| Desktop.AcquireExactly | core/desktop/hub.go:364-405 | Whoever gets control is the controller for the whole lease, and held inputs survive only a renewal in time; whoever does not changes nothing |
| Desktop.ExpiryExactly | core/desktop/security.go:96-119 | A controller survives the regular check exactly with a running lease, a valid session and no local activity |
| Desktop.DetachExactly | core/desktop/hub.go:305-334 | A client that leaves is off the register and out of control, and nobody else notices |
| Desktop.ReleaseExactly | core/desktop/hub.go:408-420 | Giving up control, and releasing all keys, have their effect for the controller alone |
| Desktop.AuthenticatedExactly | core/desktop/hub.go:717-751 | A sender becomes authenticated only by a live token or a matched password, with the role of that session, and nobody else with it |
| Desktop.RegrantExactly | core/desktop/native.go:132-156 | A live new grant puts its client under the new token and role, out of control, and ends just the session it had; any other grant changes nothing |
| Desktop.DropExactly | core/auth/auth.go:424-435 | Revocation ends just the sessions it names |
| Desktop.PasteCompletesCombination | core/desktop/hub.go:881-902 | A run: Alt, Delete, paste; every key passes the guard and the combination is held during the paste |
| Desktop.InputController.Send | core/input/input.go:186-298 | A key or button is tracked exactly when the system took the event |
| Desktop.InputController.ReleaseAllKeys | core/input/input.go:336-379 | One release for every tracked key and then every tracked button, none twice and no other; afterwards nothing is tracked |
| Desktop.StreamHub.TryAcquireControl | core/desktop/hub.go:364-405 | New state and answer are the specified ones |
| Desktop.StreamHub.ReleaseControl | core/desktop/hub.go:408-420 | Only the controller gives up control |
| Desktop.StreamHub.UnregisterClient | core/desktop/hub.go:305-334 | A leaving controller gives up control and releases everything held |
| Desktop.StreamHub.KickAllClients | core/desktop/hub.go:337-361 | Everybody registered is rejected and control is free |
| Desktop.StreamHub.ExpireControl | core/desktop/security.go:96-119 | Frees control exactly when the lease, the session or the local user says so |
| Desktop.StreamHub.GrantToken | core/desktop/native.go:132-156 | Re-authorisation releases control and drops the client's earlier token |
| Desktop.StreamHub.HandleClientCommand | core/desktop/hub.go:698-1005 | One command ends in the specified state with the specified injections |
| Auth.MinuteExactly | core/auth/auth.go:208-279 | Over every run, clean-ups and other keys included: the minute that starts at any moment can see more than the promised five wrong passwords for a key if and only if the key's record at that moment has a window begun less than a minute before and counts at most three; every continuation keeps to nine less that count, or to five, and some continuation reaches the former |
| Auth.ThrottleBound | core/auth/auth.go:208-279 | So any half-open minute of any run sees at most eight without a success, and a record never counts past five |
| Auth.ThrottleBoundIsReached | core/auth/auth.go:233-279 | An ordered run with eight |
| Auth.StepKeepsInv | core/auth/auth.go:101-428 | Every operation keeps: nonempty passwords pairwise different, at most 4096 sessions and failure records, 256 requests, 16 pending ones with different clients |
| Auth.SetPasswordKeepsDistinct | core/auth/auth.go:170-192 | Changing one password never makes two roles share one |
| Auth.PinsDiffer | core/auth/auth.go:108-135 | Drawn passwords fill the gaps: chosen ones stay, and all three end up nonempty and different |
| Auth.OneRoleMatches | core/auth/auth.go:256-265 | With different passwords, a password matches at most one role, so the order of comparison does not matter |
| Auth.EverySessionIsEarned | core/auth/auth.go:233-299 | Over every run from no sessions: each session present was opened by an attempt with the password its role had at that moment, or by the approval of a waiting request with that role, and since then that password has stayed the same and nobody has revoked the session |
| Auth.SessionsAreEarned | core/auth/auth.go:233-299 | A session after a step was there before, unexpired and unchanged, or was opened by that step for its own role and client and for a day |
| Auth.PasswordOpens | core/auth/auth.go:233-299 | A role's password opens a session of just that role whenever the key is not throttled and there is room, and spares all unexpired sessions |
| Auth.ApplyExactly | core/auth/auth.go:137-149 | New passwords are those given, role by role, and end all sessions; refused ones change nothing |
| Auth.SetExactly | core/auth/auth.go:170-192 | A single change touches one role and ends just its sessions; it is refused exactly when too long or shared with another role |
| Auth.CleaningExactly | core/auth/auth.go:208-228 | What a clean-up removes and lapses, entry by entry, and that it touches nothing else |
| Auth.DecidedExactly | core/auth/auth.go:364-401 | A waiting request is decided as the operator says, and only an approval opens a session, with the approved role |
| Auth.RequestedExactly | core/auth/auth.go:319-361 | A request is refused exactly when its client has one waiting or a limit is reached; otherwise it waits from now on and disturbs no other |
| Auth.DecisionsAreFinal | core/auth/auth.go:319-421 | A decided request keeps its decision and its token under every operation, the status poll included |
| Auth.AuthManager.AuthenticateByPassword | core/auth/auth.go:233-279 | Refusal, window, block and token exactly as specified |
| Auth.AuthManager.CleanupLocked | core/auth/auth.go:208-228 | The three deletion loops leave exactly the entries that still matter |
| Auth.AuthManager.ApplyPasswords | core/auth/auth.go:137-149 | Clashing passwords are refused and change nothing; otherwise all sessions end |
| Auth.AuthManager.SetPassword | core/auth/auth.go:170-192 | A clash changes nothing; a change ends the sessions of that role |
| Auth.AuthManager.CreateRequest | core/auth/auth.go:319-361 | One pending request a client, sixteen in all |
| Auth.AuthManager.ApproveRequest | core/auth/auth.go:364-386 | Only a pending request is approved, only with a role, and gets the token issued for it |
| Auth.AuthManager.RejectRequest | core/auth/auth.go:389-401 | Only a pending request is rejected |
| Auth.AuthManager.GetRequestStatus | core/auth/auth.go:404-421 | The answer of a poll and the state after it |
| Auth.PollOnlyCleans | core/auth/auth.go:404-421 | A poll lapses nothing by itself: the clean-up before it has lapsed every request that is a minute old |
| Auth.AuthManager.InitPasswords | core/auth/auth.go:108-161 | Refusals, draws and the passwords set; with nothing given, three new ones |
| Video.AnnexKeyframe | app/engine/video.go:5-18 | The client's scan finds exactly the IDR headers it can see, for every byte string |
| Video.EncoderKeyframe | core/encoder/h264_encoder.cpp:370-380 | The host's scan finds exactly an IDR slice or parameter set before the last byte |
| Video.KeyTestsCompared | core/encoder/h264_encoder.cpp:370-380 | The two scans differ on exactly two families of access units |
| Video.Engine.EmitVideo | app/engine/video.go:22-62 | New gate and queue, the frames a consumer wins while the queue is drained, and which sessions are asked for a keyframe |
| Video.Engine.Drain | app/engine/video.go:40-49 | Every session that lost a frame waits for a key and is asked for one |
| Video.ContiguousExactly | app/engine/video.go:22-62 | Over every run of many sessions on the one queue, races included: a session's frames come in order and are runs that start at an IDR and miss nothing, if and only if it shows no delta that came to an open gate while the session was marked by an oversized frame or a close |
| Video.OpenGateExactly | app/engine/video.go:22-62 | An open gate is missing its session's last frame if and only if that frame was oversized or the session was closed after it was lost |
| Video.SessionsStayContiguous | app/engine/video.go:22-62 | So a session that is not closed and keeps the limit shows only such runs, even when another session's overflow drained the queue |
| Video.FewRaced | app/engine/video.go:40-49 | A drain that loses anything has at most two frames snatched from it |
| Video.QueuedExactly | app/engine/video.go:22-62 | A frame is queued if and only if it keeps the limit and is a keyframe, or finds its gate open and room in the queue; nothing is lost unless the queue was full |
| Video.ShutExactly | app/engine/video.go:40-49 | A gate shuts exactly when its session loses a queued frame, or the delta that found the queue full |
| Video.RequestsAreRecorded | app/engine/video.go:29-39 | Only sessions that were refused or lost a frame are asked, with the time recorded, and no other session's time changes |
| Video.RequestsAreFresh | app/engine/video.go:29-62 | After a refusal or a loss each session concerned has a request at most two seconds old |
| Video.RequestsAreSpaced | app/engine/video.go:29-39 | Over every ordered run: two requests of a session that is not closed between them are more than two seconds apart |
| Video.OversizedFrameLeavesGateOpen | app/engine/video.go:23-26 | A run: a frame over 32 MiB is dropped and its session told to close, and the next delta is delivered without its predecessor |
| Video.ClosedSessionForgetsGate | app/engine/engine.go:849-852 | A run: a delta emitted after its session closed is delivered after nothing |
| Gates.Client.EnqueueFrame | core/desktop/security.go:22-47 | New queue and gate of one viewer, with a writer that may win frames of a drain |
| Gates.HostStaysContiguous | core/desktop/security.go:22-47 | What a viewer is sent are runs that start at an announced keyframe and miss nothing |
| Gates.OfferedExactly | core/desktop/security.go:22-47 | An offer that passes the gate is queued last with the gate open, or closes the gate, loses all that the writer does not win and asks for a keyframe; the latter exactly on a full queue |
| Gates.WaitersAreAskedFor | core/desktop/security.go:22-47 | Over every run: a viewer that waits never had a packet queued, or a keyframe was asked for at its last loss and nothing was queued since |
| Gates.GatesCompose | core/desktop/hub.go:568-584 | Host gate and then client gate are one gate on the offered frames if no unit is announced for parameter sets alone |
| Gates.CompositionExactly | core/desktop/security.go:22-47 | For every stream: some undisturbed run of host queue, lossless link and client queue, among any other sessions, shows something else than runs of the offered units if and only if bare parameter sets come five or more places behind a client keyframe that the host can have let through |
| Gates.HostStaysCalm | core/desktop/security.go:22-47 | In every undisturbed run of the host's queue a loss is at least four packets long and ends at an announced keyframe |
| Gates.TwoGatesAreOne | core/desktop/hub.go:568-584 | The same for whole undisturbed runs of both ends over a lossless link |
| Gates.ParameterSetsBreakComposition | app/engine/video.go:5-18 | A stream of six units and the turns of both ends in which the client shows parameter sets after a picture that does not precede them |
| Fragments.Reassembler.OnMessage | app/engine/engine.go:596-630 | Buffer and effect of one wire message, the limit included |
| Fragments.Send | app/engine/engine.go:653-693 | What is on the wire is a prefix of the script, all of it exactly when the send reports success |
| Fragments.SendFragments | app/engine/engine.go:653-693 | The chunk loop, abandoned after any fragment |
| Fragments.PartReceived | app/engine/engine.go:596-693 | A fragmented send in progress delivers nothing until its end marker, and then exactly the message |
| Fragments.CompletedSendsArrive | app/engine/engine.go:596-693 | For any sequence of completed and abandoned sends, from any leftover, exactly the completed messages arrive, in order and byte for byte, and the limit never trips |
| Fragments.NothingOverLimit | app/engine/engine.go:596-630 | Whatever the other end puts on the wire, no message over 10 MiB is delivered |
| Limiter.RateLimiter.Allow | server/hub.go:76-92 | Answer and windows, with the eviction loop over a crowded map |
| Limiter.EvictionIsInvisible | server/hub.go:76-92 | Over every run the answers are those of a limiter that never forgets |
| Limiter.AdmissionBound | server/hub.go:76-92 | Any closed sixty seconds see at most 2·max − 1 admitted calls of a key |
| Limiter.AdmissionBoundIsReached | server/hub.go:76-92 | For every max an ordered run that admits that many |
| Signaling.LinksAreSound | server/hub.go:204-264 | In every reachable state each link joins two different online peers, at most 128 links exist and at most sixteen call any one peer |
| Signaling.DeliveredToOtherEnd | server/hub.go:139-264 | Offers, answers and closes, those of a departure included, reach only the other end of a link of their sender, and it is online; no link ends with a departure untold |
| Signaling.NoLinkSurvivesDeparture | server/hub.go:134-158 | Once a peer has left, no later link names it |
| Signaling.RelayNeedsLiveLink | server/relay.go:113-129 | In every reachable state a relay credential works if and only if it is unexpired and names a live link and an online endpoint of it |
| Signaling.CredentialStaysDead | server/relay.go:113-129 | Over every run: after a delivered close, or a departure of either end, no credential that names the session works in any later state |
| Signaling.ToldExactly | server/hub.go:139-264 | Exactly who is told what by an event: an offer or answer within its size reaches the other end of a live link, a close and a departure the other ends, a connect both ends or, refused, its caller; nobody else is told anything |
| Signaling.LinkedExactly | server/hub.go:139-264 | Links end exactly by a close of an end, the departure of an end, or as over a day old when a connect counts them; one begins exactly when rates, target and both limits, counted without stale links, allow it |
| Signaling.OnlineExactly | server/hub.go:134-158 | Online are exactly those that entered under a free identifier and have not left |
| Signaling.RatesApart | server/hub.go:76-92 | The four limits of a connect never disturb each other, forgetting included |
| Signaling.SignalHub.Leave | server/hub.go:134-158 | The loop removes exactly the leaver's links and tells their other ends |
| Signaling.SignalHub.HandleMessage | server/hub.go:204-264 | Links, limits and deliveries of one message, and the closing of a peer that is over its message limit |
| Signaling.SignalHub.RequestLink | server/hub.go:204-240 | A new link exactly when target, rates and both limits allow it |
| Relay.SlotsAreConserved | server/relay.go:57-106 | Over every interleaving: occupied slots are exactly the allocations that hold one, at most capacity, and giving one back never blocks; after the relay's close every socket is closed, the map is empty, and a slot remains only for a release past its map delete |
| Relay.FreedOnce | server/relay.go:32-92 | Over every interleaving an allocation takes at most one slot and gives it back at most once; it has taken one and not given it back exactly while it holds one, and a finished release has given it back |
| Relay.StepKeepsInv | server/relay.go:57-106 | Every locked section and channel operation keeps the counts, the map and the close protocol in step |
| Relay.CloseCanReturn | server/relay.go:94-106 | From every reachable state some continuation lets the close return: it never hangs |
| Relay.AllocationSucceeds | server/relay.go:57-92 | After every run with the relay open and a slot free, a call with a good port and a working socket gets its packet |
| Relay.NothingNewWhileClosing | server/relay.go:57-92 | Once the close has begun no allocation becomes live any more |
| Relay.GuardedRelay.PublishPacket | server/relay.go:81-92 | The second look at the closed flag: a packet enters the map exactly when the relay still runs |
| Relay.GuardedRelay.ClosePacket | server/relay.go:32 | Only the first close starts the release |
| Relay.GuardedRelay.ReleaseSlot | server/relay.go:80 | Exactly one slot goes back |
| Relay.GuardedRelay.FinishClosing | server/relay.go:94-106 | The close returns, and then every socket is closed and the map is empty |
| Registry.IdsArePermanent | server/registry.go:34-63 | Over every run with failing transactions and exhausted tries: keys and ids are mutually inverse, ids have ten digits, and two answers are equal exactly when the keys are |
| Registry.CallKeepsInverse | server/registry.go:34-63 | One call keeps every old pair, and a failing one changes nothing |
| Registry.AnsweredExactly | server/registry.go:34-63 | When a call is answered: both directions, in terms of the draws and the writes |
| Registry.IdsAreTenDigits | server/registry.go:51-52 | Every draw prints as ten digits, and different draws differently |
| Registry.HexInjective | server/registry.go:41-42 | Different public keys have different bucket keys |
| Registry.IdRegistry.Identify | server/registry.go:34-63 | The retry loop and its transaction meet the specification |
| Pixels.BgraToNv12 | core/encoder/h264_encoder.cpp:40-89 | For every source size, odd ones too: the whole aligned buffer holds luma, block-corner chroma and black padding; all reads are inside the source and all writes inside the buffer |
| Pixels.EveryByteIsWritten | core/encoder/h264_encoder.cpp:40-89 | That specification determines every byte of the buffer |
| Pixels.AlignedSizes | core/encoder/h264_encoder.cpp:103-104 | The 16-aligned sizes hold the picture, are even, and their buffer size fits a 32-bit int |
| Pixels.BufferSizeIsThreeHalves | core/encoder/h264_encoder.cpp:263-264 | The two planes are three halves of the luma plane |
| Pixels.ClampsNeverBind | core/encoder/h264_encoder.cpp:55-64 | Luma stays in 16..235 and chroma in 16..240 before any clamp |
| Pixels.CornersMeasured | core/encoder/h264_encoder.cpp:50-66 | At the place NV12 prescribes, the corner of each block has its luma and then blue and red difference, each less than one step from the exact value of that pixel |
| Pixels.LumaMeasures | core/encoder/h264_encoder.cpp:50-66 | Every pixel is measured by the luma byte in its own place |
| Pixels.ColourOfBytes | core/encoder/h264_encoder.cpp:50-56 | The measured colour is the blue, green and red byte of that pixel in the source |
| Pixels.Nv12ToBgra | app/native/decoder.cpp:184-201 | A buffer that is too short is refused; otherwise every pixel is written from its luma and its block's chroma |
| Pixels.ColourRoundTrip | app/native/decoder.cpp:189-201 | One colour through both formulas is off by at most 2 in red and green and 3 in blue |
| Pixels.BoundsAreReached | app/native/decoder.cpp:189-201 | Colours that are off by that much |
| Pixels.PictureRoundTrip | app/native/decoder.cpp:189-201 | Through both loops, at any size: a pixel with the colour of its block's corner comes back opaque within those bounds |
| Pixels.PaddingIsBlack | core/encoder/h264_encoder.cpp:68-88 | The padding decodes to exact black from the first whole block behind the picture |
| Dib.WriteDib | core/clipboard/clipboard.go:182-226 | Over memory with arbitrary contents: header fields, the image size among them, and bottom-up rows are set, and bytes 24 to 39 are left as they were |
| Dib.DecodeDib | core/clipboard/clipboard.go:295-332 | On every byte string: accepts exactly the well-formed ones, never reads outside, and returns the picture they stand for |
| Dib.DibRoundTrip | core/clipboard/clipboard.go:205-332 | A written bitmap with any bytes behind it is accepted if and only if the color-count word, which the writer never sets, is zero; it then stands for the same picture made opaque |
| Dib.UnluckyIsRejected | core/clipboard/clipboard.go:188-316 | A bitmap the writer wrote and the reader rejects |
| Dib.PixelsReadBack | core/clipboard/clipboard.go:205-332 | The pixels come back byte for byte if and only if the picture was opaque |
| Dib.RowOrders | core/clipboard/clipboard.go:317-321 | A negative height stands for the same rows upside down |
| Dib.AnyBitmapReads | core/clipboard/clipboard.go:295-332 | A bitmap of any writer, 24 or 32 bits a pixel, either row order, any header length, is accepted and reads back as the picture it stores; a pixel without alpha, or with alpha zero, is opaque |
| Dib.AcceptedExactly | core/clipboard/clipboard.go:295-315 | Accepted are exactly the headers that are followed by their picture, lines padded to 32 bits |

## Left out

- Desktop.KeyCommandStaysUnrestricted: speaks of the `key` command only; `Desktop.ExposedExactly` speaks of every command.
- Limiter.AdmissionBound: speaks of a key whose maximum is the same in all its calls.
- Gates.GatesCompose: one direction, with a condition on each unit; `Gates.CompositionExactly` is the exact statement.
- Gates.CompositionExactly: is about streams of units of at most 32 MiB and runs in which no frame is taken in the middle of a drain; what larger units do is `Video.ContiguousExactly`.
- Video.SessionsStayContiguous: excludes sessions that met an oversized frame or were closed; `Video.ContiguousExactly` is about all.
- The sender of the file transfer, the relay's allocations and the frames' consumers run at the same time as their counterparts: they are steps on values, cut at their channel operations and locked sections, not loops over an object; the relay also has its sections as methods.
- A command is one atomic step; a revocation that falls between its acquire and its injection is not told apart from one that follows it.
- The pauses inside composite commands, the clipboard's contents and monitor coordinates: only key events, buttons and moves are kept.
- Names that differ by case only, and reserved device names, in the received-files directory.
- How random passwords are drawn: the draws are an input, and running out of them stands for a program that still draws.
- The client limit of `AttachConnection` and the peer limit of the signaling server: plain counts checked before registration.
- The decoder's own key gate, which repeats the client's scan, and the rotation of captured pictures: easier than what is here.
- The signaling server's lossy per-peer outbox: delivery stands for the attempt to send.
- Capture, codecs, clipboard handles, input calls, windows and message loops: system calls, kept only as success or failure.
- WebRTC, TURN, WebSocket and TLS: libraries, assumed to be reliable FIFO channels where a data channel is used.
- Signatures, MACs and random numbers: fresh values.
- HTTP handlers, settings, services and browser scripts: plumbing.
