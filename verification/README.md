# Misaka, modelled and proved in Dafny

Misaka is a peer-to-peer job network. Sisters (nodes) hold memberships signed by a Network Authority,
exchange human-authorized jobs, move files, publish locators through a Gateway and enroll new Sisters by
invite. This project models the parts whose correctness depends on whole runs: envelopes forwarded, stolen,
duplicated or replayed, clocks read twice, crashes between two file operations, and concurrent tasks.

Code that updates state step by step is a class or a method with loops, tied by its `ensures` to a function of
the old state; protocols are state machines over those functions, one step per lock, file operation or frame,
and the theorems quantify over every run. Signatures are symbolic: a signature is the pair of a key and the
text it covers, each contract has its own kind of text, and a text lists every signed field. Clock readings,
random values, operating-system answers, network delivery and command results are inputs.

| file | models |
|---|---|
| `Identity.dfy`, `Wrappers.dfy` | signed contracts, roles, memberships, authorizations, bindings, records |
| `JobNetwork.dfy` | the authorized job protocol over many Sisters and a hostile network |
| `JobManagement.dfy` | the queue, job table and waiters of one Sister |
| `NonceStore.dfy` | the durable list of spent authorization nonces |
| `Gateway.dfy` | request authentication and the TTL directory |
| `Enrollment.dfy`, `Bootstrap.dfy`, `SerialStore.dfy` | invite redemption, bootstrap records, membership serials |
| `JoinTransaction.dfy` | staged installation of a joined Network |
| `ContentStore.dfy` | content-addressed storage under concurrent commit and copy-out |
| `ParallelCopy.dfy`, `TransferReceiver.dfy` | parallel resumable copy, both ends |
| `TransferDigest.dfy`, `Base64Url.dfy` | the transfer digest and the invite-code codec |
| `Session.dfy` | the mutual handshake |
| `PeerTable.dfy` | the in-memory neighbour table |

`dafny verify dfyconfig.toml` covers the whole project.

## Where the code and its own words differ

The model follows the code. Each of these has a lemma with a concrete run and one with the exact condition.

- The serial allocator is described as never reusing a serial; `saturating_add` stops it at the u64 maximum,
  which then repeats (`SerialStore.NextSerialExceedsExactlyWhen`, `SerialStore.SaturationRepeats`).
- The nonce store refuses a replay only while the first entry is kept: a record read past the authorization's
  expiry, or after the clock went back behind a compaction, goes through again
  (`NonceStore.RecordedExactlyWhen`, `NonceStore.LateOrRewoundRecordsRepeat`). Since the handler reads the clock
  once to verify and again to record, a job can be enqueued twice (`JobNetwork.GrantedAgainExactlyWhen`,
  `JobNetwork.SampleIsEnqueuedTwice`).
- The content store removes a partial once the object is safe, but a committer that found an earlier corrupt
  object may still remove the good one that replaced it. No content is lost, since that committer holds its own
  copy; the object itself stays for good exactly when no such removal is outstanding
  (`ContentStore.RunIsSafe`, `ContentStore.ObjectStaysExactlyWhen`, `ContentStore.StoredObjectCanVanish`).
- A join cut between `network.json` and `membership.bin` is harmless unless it replaces the Authority of the
  same NetworkId under an existing membership (`JoinTransaction.ConsistentExactlyUnless`,
  `JoinTransaction.AuthorityChangeCutShort`).
- A chunk task that has the part open when Finalize takes it away writes to a file at no path and then marks a
  chunk of zeros; the digest check at the next Finalize catches it (`TransferReceiver.TruthfulExactlyWhenHarmless`,
  `TransferReceiver.LateMarkIsWrong`).

## Model

| member | source | states |
|---|---|---|
| `Identity.MembershipVerifiesExactly` | crates/misaka-core/src/identity.rs:748-763 | A certificate verifies exactly for the Authority that signed these very fields, its window is inclusive, and no signature serves two certificates |
| `Identity.CommandVerifiesExactly` | crates/misaka-core/src/identity.rs:471-501 | An authorization verifies exactly when it and its grant are signed field by field, both are live and the role may do what is permitted; no signature serves two |
| `Identity.RecordVerifiesExactly` | crates/misaka-core/src/identity.rs:977-986 | A record verifies exactly when it and its binding are signed by the Sister both name |
| `Identity.RevocationVerifiesExactly` | crates/misaka-core/src/identity.rs:828-833 | A revocation verifies exactly for the Authority that signed these very fields |
| `JobNetwork.AtMostOnceOnTarget` | crates/misaka-runtime/src/handler.rs:213-323 | Over every run of any Sisters with forwarding, stealing, loss, duplication, replay, restarts and stream operations recording in the same nonce file, with local clocks that do not go back and no grant of the authorization read past its expiry: all Sisters together enqueue it at most once, start it at most once, and only on its target |
| `JobNetwork.GrantedAgainExactlyWhen` | crates/misaka-runtime/src/handler.rs:254-285 | On any Sister of any run with a working file and no other entry for the nonce, a granted authorization is granted again if and only if the reading for the record is past its expiry |
| `JobNetwork.LateDuplicateIsEnqueuedTwice` | crates/misaka-runtime/src/handler.rs:254-285 | The proviso is needed: at any Sister of any fresh network and for any job it would take there is a run in which both of two verified deliveries are enqueued, the second recorded past the expiry |
| `JobNetwork.SampleIsEnqueuedTwice` | crates/misaka-runtime/src/handler.rs:254-285 | One concrete network, authorization and run with two enqueues |
| `JobNetwork.RunHolds` | crates/misaka-runtime/src/handler.rs:65-323 | What every step keeps on every Sister: everything past the signature check names this Sister and Network, a spent nonce stays on disk while it can matter, and no more enqueues than grants and no more starts than enqueues per authorization |
| `JobNetwork.AuthenticatedModeNeverHandsOver` | crates/misaka-runtime/src/handler.rs:226-323 | With unauthenticated operations off, in every reachable state only jobs authorized for this Sister have been enqueued and no other Sister can steal one |
| `JobNetwork.HopsKeepTheJob` | crates/misaka-runtime/src/handler.rs:309-409 | Through any chain of forwards and steals every job anywhere keeps the id, creator, full command line and authorization of a job somebody submitted, an envelope a Sister sends has itself as `from` and the executor its job names as `to`, results go to the creator, and only the creator takes them |
| `JobNetwork.JudgeExactly` | crates/misaka-runtime/src/handler.rs:213-285 | Field by field and both ways: an admitted job is forwarded exactly for a known remote executor its authorization names, taken exactly when it names this Sister and there is nobody to forward to, with both signatures, live windows, an Owner or Operator, the job's own command line and no revocation; run unauthenticated only where that is allowed; refused otherwise |
| `JobNetwork.ForwardsGoWhereAuthorized` | crates/misaka-runtime/src/handler.rs:286-307 | In every run a forward carries the job unchanged under the forwarder's own name to the known peer that the job names and its authorization is for |
| `JobNetwork.LoggedJobsAreSigned` | crates/misaka-runtime/src/handler.rs:240-263 | In every run each authorized job a Sister enqueued was signed by its issuer, whose role the Authority signed, for this Sister and this command line |
| `JobNetwork.FullCommandAppends` | crates/misaka-core/src/protocol.rs:462-470 | A command line is the command and then each argument after a space |
| `JobNetwork.RequestStepIsASteal` | crates/misaka-runtime/src/handler.rs:362-375 | An admitted work request is the manager's steal of the first job its sender may run; any other does nothing |
| `JobNetwork.SettleStepIsAHandOff` | crates/misaka-runtime/src/handler.rs:372-409 | An offer ends transferred, sent to the requester as executor, exactly when the requester is known and reached, and otherwise back in the queue |
| `JobNetwork.ExecutorStepsAreTheShops` | crates/misaka-runtime/src/executor.rs:30-100 | The executor's pop, start and finish are the manager's, and a result is sent exactly to a remote creator |
| `JobNetwork.NewJobsEnterTheShop` | crates/misaka-runtime/src/handler.rs:308-323 | A job past the checks enters the queue and table with its own id, command line, creator, address and authorization |
| `JobNetwork.OtherSteps` | crates/misaka-runtime/src/handler.rs:325-360 | What delivering a job, a result, a submission, a stream's nonce record and a crash each do to a Sister and to the wire |
| `JobNetwork.SisterNode.CheckJob` | crates/misaka-runtime/src/handler.rs:213-300 | The Job branch's decision before the nonce store: sender binding, Network, forward or local, permission, signature, target, constraints, revocation, or the unauthenticated mode |
| `JobNetwork.SisterNode.DispatchJob` | crates/misaka-runtime/src/handler.rs:213-323 | The Job branch run through: exactly when the job is enqueued, what the queue and the nonce file become, and which envelope is forwarded |
| `JobNetwork.UninterruptedBranch` | crates/misaka-runtime/src/handler.rs:213-323 | The branch taken without interruption equals its three steps of the state machine: check, record, enqueue |
| `JobManagement.EveryJobInOnePlace` | crates/misaka-runtime/src/job_manager.rs:39-116 | After any events with fresh ids each known job is in exactly one of waiting (queue, popped, or offered to a thief), running, transferred, finished |
| `JobManagement.RunConserves` | crates/misaka-runtime/src/job_manager.rs:39-116 | In every reachable state the queue, the hands and the executor agree with the table's status for every id, and every waiting copy is the job the table knows |
| `JobManagement.TableKeepsJobs` | crates/misaka-runtime/src/job_manager.rs:93-116 | A known job never leaves the table or changes identity, and a transferred or finished job keeps that status |
| `JobManagement.IdleMeansAllDone` | crates/misaka-runtime/src/job_manager.rs:85-91 | `is_busy` is false exactly when every known job is transferred or finished |
| `JobManagement.FailedStealLosesNothing` | crates/misaka-runtime/src/handler.rs:362-409 | A steal with nothing transferable changes nothing, and one taken and put back leaves the table as it was and the same jobs queued |
| `JobManagement.WaitersResolveOnce` | crates/misaka-runtime/src/job_manager.rs:118-130 | Whatever results arrive, late or twice, no waiter is resolved twice and none is resolved while still pending |
| `JobManagement.ResolvedExactly` | crates/misaka-runtime/src/job_manager.rs:118-130 | Exactly the waiters whose reservation still stood when its result came are resolved |
| `JobManagement.PendingExactly` | crates/misaka-runtime/src/job_manager.rs:118-130 | The pending table holds for each job the waiter of the reservation no later reservation, result or cancellation touched |
| `JobManagement.MarksAreRecorded` | crates/misaka-runtime/src/job_manager.rs:93-116 | What running, transferred and finished write in a row, field by field, and that nothing else changes |
| `JobManagement.InlineIsRecorded` | crates/misaka-runtime/src/job_manager.rs:47-51 | An inline job enters the table running and not the queue |
| `JobManagement.JobManager.Enqueue` | crates/misaka-runtime/src/job_manager.rs:39-45 | The job is known as queued and last in the queue |
| `JobManagement.JobManager.StartInline` | crates/misaka-runtime/src/job_manager.rs:47-51 | The job is known as running and never queued |
| `JobManagement.JobManager.Pop` | crates/misaka-runtime/src/job_manager.rs:53-62 | First in first out, nothing else changes |
| `JobManagement.JobManager.PopTransferable` | crates/misaka-runtime/src/job_manager.rs:64-71 | Removes the first job this requester may run, or nothing when there is none |
| `JobManagement.JobManager.IsBusy` | crates/misaka-runtime/src/job_manager.rs:85-91 | True exactly when the queue or the table holds queued or running work |
| `JobManagement.JobManager.ResolvePending` | crates/misaka-runtime/src/job_manager.rs:124-126 | Hands the waiter over and forgets it |
| `NonceStore.RecordedExactlyWhen` | crates/misaka-runtime/src/authorization_nonce_store.rs:34-62 | For any file at the start, any history of calls and any clock: a call records exactly when the Networks agree, the file works, and no matching entry, of an earlier call or found at the start, is both unexpired now and never compacted away |
| `NonceStore.FileHoldsSurvivors` | crates/misaka-runtime/src/authorization_nonce_store.rs:34-62 | From any file at the start, the file holds exactly the entries that were there or landed and survived every later compaction |
| `NonceStore.RepeatsOnlyWhenLate` | crates/misaka-runtime/src/authorization_nonce_store.rs:34-62 | From any file, with clocks that do not go back, the same nonce is recorded twice only past the first one's expiry |
| `NonceStore.LateOrRewoundRecordsRepeat` | crates/misaka-runtime/src/authorization_nonce_store.rs:48-53 | Concrete histories in which a late reading, and a clock set back, let a nonce through twice |
| `NonceStore.AuthorizationNonceStore.Record` | crates/misaka-runtime/src/authorization_nonce_store.rs:34-62 | Outcome and new file of one call, every failure included |
| `NonceStore.RecordOutcomes` | crates/misaka-runtime/src/authorization_nonce_store.rs:34-62 | A record leaves exactly the unexpired entries and its own, a refusal leaves the file, a failed write the old text, the new, or none |
| `NonceStore.Compact` | crates/misaka-runtime/src/authorization_nonce_store.rs:43-48 | The retain loop keeps exactly the unexpired entries in order |
| `Gateway.ReplaySafeExactlyWhen` | crates/misaka-gatewayd/src/lib.rs:106-130 | No request is accepted twice in any run whose readings run back by at most D, if and only if the nonce TTL exceeds 2·window + 2·D, although a replay overwrites the stored expiry |
| `Gateway.NoReplay` | crates/misaka-gatewayd/src/lib.rs:106-130 | Every run with enough TTL is free of replays |
| `Gateway.NoReplayInRun` | crates/misaka-gatewayd/src/lib.rs:106-130 | No signed request is accepted twice in a run of announces, listings and writes |
| `Gateway.NoncesFollowTheCalls` | crates/misaka-gatewayd/src/lib.rs:106-130 | In a run the nonce set is what its requests alone make of it |
| `Gateway.ReplayExists` | crates/misaka-gatewayd/src/lib.rs:106-130 | With too little TTL a run with an accepted replay |
| `Gateway.ShippedLimitsAreSafe` | crates/misaka-core/src/gateway.rs:300-308 | The shipped 300 and 900 seconds hold for readings running back by up to 149 seconds |
| `Gateway.DirectoryStaysSound` | crates/misaka-gatewayd/src/lib.rs:137-156 | In every run each entry is keyed by its record's Sister and was written from a record signed by that Sister's key and a certificate the Authority signed for the same id and key, live at the check |
| `Gateway.EveryWriteWasAnnounced` | crates/misaka-gatewayd/src/lib.rs:229-245 | In every run each write goes back to an announce within the window whose sender signed that very record and membership |
| `Gateway.AnnounceIsStoredExactlyWhen` | crates/misaka-gatewayd/src/lib.rs:137-156 | From any state an announce is written exactly when accepted, signed and the member's own, and not below a live greater sequence |
| `Gateway.VerifyRequestExactly` | crates/misaka-core/src/gateway.rs:251-284 | A request passes exactly when every check holds over the signed fields, body digest included, and is refused for the first that does not |
| `Gateway.LiveMeansRecent` | crates/misaka-gatewayd/src/lib.rs:158-178 | A stored record is live exactly for one TTL from a write of it |
| `Gateway.SequenceNeverFallsInRun` | crates/misaka-gatewayd/src/lib.rs:137-156 | In any run, renewals included, a Sister's sequence never falls from one point to a later one if its entry is live at every write in between |
| `Gateway.SequenceHoldsWhileLive` | crates/misaka-gatewayd/src/lib.rs:137-156 | For any readings, writes that each find the entry live never lower its sequence |
| `Gateway.DirectoryIsItsWrites` | crates/misaka-gatewayd/src/lib.rs:229-245 | In every interleaving the directory is the fold of the writes in lock order |
| `Gateway.GatewayHost.Authenticate` | crates/misaka-gatewayd/src/lib.rs:106-130 | Accepts exactly a verified request with an unspent nonce, returns the member's key or the first failing check's error, and what the nonce map becomes |
| `Gateway.GatewayHost.UpsertRecord` | crates/misaka-gatewayd/src/lib.rs:137-156 | The directory after one upsert: a live entry with a greater sequence is kept |
| `Gateway.GatewayHost.LiveRecords` | crates/misaka-gatewayd/src/lib.rs:158-166 | Returns exactly the live records, each entry once |
| `Gateway.GatewayHost.EntryFor` | crates/misaka-gatewayd/src/lib.rs:170-178 | Returns the entry exactly while it is live |
| `Enrollment.EveryCertificateIsWarranted` | crates/misaka-runtime/src/enrollment.rs:126-236 | In every run against arbitrary joiners, with crashes: each certificate is signed by this Authority's key over the id and key of its own stream's request from the moment of issue, and follows on that stream a request with an invite this Authority signed field by field, live then, with a signed locator, and a proof by that key over the challenge built from it |
| `Enrollment.SerialsAreDistinct` | crates/misaka-runtime/src/enrollment.rs:145-165 | No two certificates of a run share a serial below the counter's maximum, across crashes and reopened allocators |
| `Enrollment.ProofsDoNotTransfer` | crates/misaka-core/src/enrollment.rs:279-295 | While challenge nonces are fresh, a proof accepted on one stream is refused on every other |
| `Enrollment.ExchangeSucceedsExactlyWhen` | crates/misaka-runtime/src/enrollment.rs:246-296 | An honest exchange with an honest Authority ends in an accepted bundle if and only if the invite is signed by this Authority and live at evaluation and leads to this Sister, the allocator works, the joiner expects this Network, and its last reading is not before the issue time |
| `Enrollment.StreamIsServed` | crates/misaka-runtime/src/enrollment.rs:126-178 | A stream served start to end is granted exactly when version and invite are good, the proof is the requested key's over the challenge and the serial's write is done; which refusal otherwise |
| `Enrollment.EvaluateExactly` | crates/misaka-runtime/src/enrollment.rs:183-214 | Challenged exactly with a live invite of this Authority leading here; expired, wrong Network or invalid in exactly the stated cases |
| `Enrollment.InviteVerifiesExactly` | crates/misaka-core/src/enrollment.rs:142-155 | An invite verifies exactly when its Authority signed these fields and it is live, and no signature serves two invites |
| `Enrollment.ValidatesExactly` | crates/misaka-core/src/enrollment.rs:337-387 | A joiner takes exactly a response of this version, for the invite's Authority and the expected Network, with a certificate sealed for its own id and key and sealed records; why it refuses any other |
| `Enrollment.ChallengeIsOursExactly` | crates/misaka-runtime/src/enrollment.rs:275-286 | A challenge is answered exactly when it is the one built from the joiner's own request |
| `Enrollment.StreamsEnd` | crates/misaka-runtime/src/enrollment.rs:97-124 | What a hang-up, a close and a crash do to the streams |
| `Enrollment.ValidatedBundlesInstall` | crates/misaka-core/src/enrollment.rs:337-387 | Whatever response a joiner accepts passes staging and installs whole into an empty directory with a membership that is vouched for |
| `Enrollment.IssueInvite` | crates/misaka-core/src/enrollment.rs:118-155 | An invite by the Authority's key with a good locator verifies throughout its window |
| `Enrollment.EnrollmentServer.AnswerRequest` | crates/misaka-runtime/src/enrollment.rs:126-139 | The stream's next state and reply to a request are those of the state machine |
| `Enrollment.EnrollmentServer.AnswerProof` | crates/misaka-runtime/src/enrollment.rs:141-178 | Grants exactly on a verified proof and a durable serial, with the allocator and stream stepping as in the state machine |
| `Enrollment.Redeem` | crates/misaka-runtime/src/enrollment.rs:246-296 | A proof goes out exactly over a challenge that echoes the joiner's own request, verifies there, and only an accepted response is handed on |
| `Bootstrap.BootstrapRecords` | crates/misaka-runtime/src/enrollment.rs:231-235 | Sorting and dropping repeats yields the one list ascending by id that holds the first record offered for each id |
| `Bootstrap.SortStable` | crates/misaka-runtime/src/enrollment.rs:233 | Sorted by id with the first offered for each id still first |
| `Bootstrap.DedupById` | crates/misaka-runtime/src/enrollment.rs:234 | Of a sorted list, exactly the first record of each id in ascending order |
| `Bootstrap.ListingIsUnique` | crates/misaka-runtime/src/enrollment.rs:231-235 | The ascending listing of first records is unique |
| `Bootstrap.LocatorIsKept` | crates/misaka-runtime/src/enrollment.rs:231-235 | The Authority Sister's own locator is always among them |
| `Bootstrap.BootstrappedAreOffered` | crates/misaka-runtime/src/enrollment.rs:231-235 | Nothing is returned that was not offered, and every Sister offered is covered |
| `SerialStore.SerialsIncreaseUntilSaturation` | crates/misaka-runtime/src/membership_serial_store.rs:30-70 | Over any run of opens, allocations, failed writes, crashes and reopens from any file, serials strictly increase if and only if there was room whenever one was handed out |
| `SerialStore.NextSerialExceedsExactlyWhen` | crates/misaka-runtime/src/membership_serial_store.rs:58-70 | Before an allocation on any durable allocator: the serial it would hand out exceeds every earlier one if and only if the handle is below the maximum or the maximum was never handed out |
| `SerialStore.SaturationRepeats` | crates/misaka-runtime/src/membership_serial_store.rs:63 | At the maximum the same serial comes out twice |
| `SerialStore.ReopeningResumes` | crates/misaka-runtime/src/membership_serial_store.rs:30-70 | After a close, or a crash or failure with the write under way, what the file holds and what the next handle resumes from |
| `SerialStore.RunKeepsDurable` | crates/misaka-runtime/src/membership_serial_store.rs:30-70 | Neither the file nor the handle ever falls below a serial handed out |
| `SerialStore.MembershipSerialStore.OpenHandle` | crates/misaka-runtime/src/membership_serial_store.rs:30-56 | Opening resumes from the file, zero when missing, and fails exactly on unreadable text |
| `SerialStore.MembershipSerialStore.AllocateSerial` | crates/misaka-runtime/src/membership_serial_store.rs:58-70 | Hands out a serial exactly when its write is done, and that serial is then on disk |
| `JoinTransaction.InstallsAreCrashSafe` | crates/misaka-runtime/src/join_transaction.rs:71-182 | From an empty directory, over any sequence of installs for one Authority cut after any rename, a present membership has beside it the matching NetworkId and a descriptor whose key signed its very fields |
| `JoinTransaction.ConsistentExactlyUnless` | crates/misaka-runtime/src/join_transaction.rs:172-182 | For any Authorities: an attempt breaks a consistent directory if and only if it is cut right after the descriptor while replacing another Authority under a membership |
| `JoinTransaction.OtherNetworksAreRefused` | crates/misaka-runtime/src/join_transaction.rs:92-112 | After any history that installed anything, another Network is refused and every file stays as it is |
| `JoinTransaction.WholeInstallEndsAtItsBundle` | crates/misaka-runtime/src/join_transaction.rs:71-90 | After any history an uncut install of the same Network ends at its own bundle |
| `JoinTransaction.ByIdIsLast` | crates/misaka-runtime/src/join_transaction.rs:135-140 | Installed records are keyed by Sister id, the last for each id |
| `JoinTransaction.AuthorityChangeCutShort` | crates/misaka-runtime/src/join_transaction.rs:172-182 | The concrete pair of installs that leaves a membership nothing vouches for |
| `JoinTransaction.AlwaysOneNetwork` | crates/misaka-runtime/src/join_transaction.rs:71-182 | In every reachable directory no two files name different Networks and anything installed includes the NetworkId |
| `JoinTransaction.DataDirectory.Install` | crates/misaka-runtime/src/join_transaction.rs:71-182 | Outcome and files of one call for every failure and cut; a refusal or failed verification changes nothing |
| `ContentStore.RunIsSafe` | crates/misaka-runtime/src/content_store.rs:29-77 | For any committers and readers interleaved per file operation and crashing anywhere: after every step the object or the partial of a committer that has not succeeded has the digest; no corrupt object ever appears; each destination is untouched or complete |
| `ContentStore.AllCommittedMeansStored` | crates/misaka-runtime/src/content_store.rs:29-77 | When every committer has returned success the object has the digest |
| `ContentStore.ObjectStaysExactlyWhen` | crates/misaka-runtime/src/content_store.rs:42-48 | A stored object survives every continuation if and only if no committer that found an earlier corrupt object has yet to remove it |
| `ContentStore.StoredObjectCanVanish` | crates/misaka-runtime/src/content_store.rs:42-48 | The concrete run of two committers in which one succeeds and the other then removes the stored object, keeping its own good partial |
| `ContentStore.CommitStepLocally` | crates/misaka-runtime/src/content_store.rs:29-77 | One operation of a committer touches only its own files and the object, puts nothing without the digest there, and never loses both the object and its own good partial |
| `ContentStore.ReadStepLocally` | crates/misaka-runtime/src/content_store.rs:81-110 | One operation of a reader leaves the destination old or complete; success reports the size of a destination with the digest |
| `ContentStore.RefusedRenames` | crates/misaka-runtime/src/content_store.rs:55-75 | What follows a commit's rename that does not go through, for each error and each content found |
| `ContentStore.RefusedPlacings` | crates/misaka-runtime/src/content_store.rs:98-109 | What follows a reader's rename that does not go through |
| `ContentStore.CrashStops` | crates/misaka-runtime/src/content_store.rs:29-110 | A crash changes no file and ends its process's operations |
| `ContentStore.Store.HashFile` | crates/misaka-runtime/src/content_store.rs:117-129 | Hashing by pieces of any size is the hash of the whole file |
| `ContentStore.Store.CopyFile` | crates/misaka-runtime/src/content_store.rs:131-147 | Copying by pieces gives a whole copy and its size; a failure before the target exists, after any piece or at the flush leaves what was written there and changes nothing else |
| `ContentStore.CommitCopies` | crates/misaka-runtime/src/content_store.rs:29-77 | A copy's answers lead the committer's protocol to the same files and place |
| `ContentStore.ReadCopies` | crates/misaka-runtime/src/content_store.rs:81-110 | A copy's answers lead the reader's protocol to the same files and place |
| `ContentStore.Store.Contains` | crates/misaka-runtime/src/content_store.rs:19-25 | True exactly when the object is there with its digest |
| `ContentStore.Store.CommitVerifiedFile` | crates/misaka-runtime/src/content_store.rs:29-77 | Run alone under any failures, torn copies included: one run of the committer's protocol; success means a good object and the partial gone, an error leaves the partial, a good object stays; without failures success is exactly a good partial |
| `ContentStore.Store.Materialize` | crates/misaka-runtime/src/content_store.rs:81-110 | Run alone under any failures, torn copies included: one run of the reader's protocol; success means a whole copy of a good object, an error leaves the destination as it was or, after a failed second rename, absent |
| `ParallelCopy.RangesTile` | crates/misaka-cli/src/main.rs:2893-2894 | Chunk ranges are consecutive, non-empty, at most a chunk long, end at the size, and each byte lies in exactly the chunk its position names |
| `ParallelCopy.SlicesAreTheFile` | crates/misaka-cli/src/main.rs:3172-3187 | The slices in order are the file |
| `ParallelCopy.HonestChunksAreTaken` | crates/misaka-runtime/src/runtime.rs:1234-1278 | Up to the chunk limit the receiver takes every chunk the sender cuts, and never the same chunk with one byte altered |
| `ParallelCopy.RequestIsValidExactly` | crates/misaka-runtime/src/runtime.rs:1234-1278 | The receiver acts exactly on requests with 64 KiB chunks, the count the size takes and at most 2^20, and the exact range of the chunk named |
| `ParallelCopy.ControlRequestsAreTaken` | crates/misaka-cli/src/main.rs:2897-2914 | Prepare and Finalize are taken exactly for files within that limit |
| `ParallelCopy.RunCopy` | crates/misaka-cli/src/main.rs:2922-3014 | For any order of worker ends the trace is disciplined; Finalize is sent if and only if the resume is usable, an authorization loads for every lacking chunk and for Finalize, and every lacking chunk is acknowledged; success is exactly Finalize accepted |
| `ParallelCopy.SendChunks` | crates/misaka-cli/src/main.rs:2941-2987 | The pool ends empty with every lacking chunk acknowledged, or stops without finalizing because one could not be authorized or was not acknowledged |
| `ParallelCopy.DisciplineHoldsThroughout` | crates/misaka-cli/src/main.rs:2941-3007 | At every point of a trace workers in flight are within the bound, and Finalize stands last with nobody in flight and every index completed or acknowledged |
| `TransferReceiver.ReceiverIsFaithful` | crates/misaka-runtime/src/runtime.rs:1097-1231 | However chunk tasks of any attempts interleave, repeat, fail part way and crash, each keeping the part file it opened: if no Finalize pulls the files from under a task yet to mark, a chunk reported completed is right, a complete part is the file, and what is stored is the file |
| `TransferReceiver.SettledFinalizesAreHarmless` | crates/misaka-runtime/src/runtime.rs:1133-1220 | Which holds in every run whose Finalizes come with no chunk task between check and mark |
| `TransferReceiver.TruthfulExactlyWhenHarmless` | crates/misaka-runtime/src/runtime.rs:1133-1220 | After a Finalize no later task can make the bitmap lie if and only if it left no task with a non-zero chunk that has the part open or written and unmarked while part or state is gone, or is about to open a part whose state is gone |
| `TransferReceiver.LateMarkIsWrong` | crates/misaka-runtime/src/runtime.rs:1138-1218 | The concrete run in which a task with the removed part still open writes there and a chunk of zeros is marked completed |
| `TransferReceiver.StoredAlwaysHasTheDigest` | crates/misaka-runtime/src/runtime.rs:1199-1218 | In every run only content with the file's digest is stored |
| `TransferReceiver.ChunkTaskCompletes` | crates/misaka-runtime/src/runtime.rs:1123-1167 | A chunk task left alone ends answered with its chunk in the part and marked, and nothing else changed |
| `TransferReceiver.CompletedChunkIsAnswered` | crates/misaka-runtime/src/runtime.rs:1133-1167 | A chunk already marked is answered without touching a file |
| `TransferReceiver.WritesThroughHandles` | crates/misaka-runtime/src/runtime.rs:1139-1147 | A write through a handle to a part that is gone or replaced changes no file; a failing write changes at most bytes to the file's |
| `TransferReceiver.FinalizeOutcomes` | crates/misaka-runtime/src/runtime.rs:1169-1230 | What Finalize leaves when found stored, incomplete, complete with another digest, and complete and right |
| `TransferReceiver.BitmapFits` | crates/misaka-runtime/src/runtime.rs:1355-1357 | A bit for every chunk and less than a byte to spare |
| `TransferReceiver.AnyOrderReassembles` | crates/misaka-runtime/src/runtime.rs:1138-1146 | Chunks written in any order, any number of times, replace exactly their own bytes, and all of them make the file |
| `TransferReceiver.MarkCompletesOne` | crates/misaka-runtime/src/runtime.rs:1359-1366 | Marking a bit completes that chunk and no other |
| `TransferReceiver.CompletedIndices` | crates/misaka-runtime/src/runtime.rs:1368-1376 | Exactly the completed indices, ascending, as many as chunks exactly when all are completed |
| `TransferDigest.ChunkingIsIrrelevant` | crates/misaka-core/src/protocol.rs:24-31 | Updating chunk by chunk equals updating on the concatenation for every split |
| `TransferDigest.OneByteChangesDigest` | crates/misaka-core/src/protocol.rs:24-50 | Equal-length inputs differing in exactly one byte differ in every lane and in the digest |
| `TransferDigest.FinalizedInjective` | crates/misaka-core/src/protocol.rs:33-39 | Finalization loses nothing of the state |
| `TransferDigest.AbsorbInjective` | crates/misaka-core/src/protocol.rs:24-31 | Lanes that differ stay different whatever bytes follow |
| `TransferDigest.UpdateTransferDigest` | crates/misaka-core/src/protocol.rs:24-31 | The in-place loop, byte by byte over the lanes, equals absorbing the bytes lane by lane |
| `TransferDigest.FinalizeTransferDigest` | crates/misaka-core/src/protocol.rs:33-39 | The lanes in little-endian order |
| `TransferDigest.ComputeTransferDigest` | crates/misaka-core/src/protocol.rs:41-50 | The 32-byte digest of the whole input |
| `TransferDigest.EmptyDigest` | crates/misaka-core/src/protocol.rs:41-50 | The digest of nothing, written out |
| `TransferDigest.OneByteDigest` | crates/misaka-core/src/protocol.rs:24-50 | For every byte, each lane is its starting value xored with it and multiplied by the prime modulo 2^64, all constants written out |
| `Base64Url.RoundTrip` | crates/misaka-core/src/enrollment.rs:462-510 | The streaming decoder undoes the group encoder on every byte string |
| `Base64Url.Canonical` | crates/misaka-core/src/enrollment.rs:481-510 | Whatever text decodes is the encoding of the result |
| `Base64Url.AcceptsExactlyTheImage` | crates/misaka-core/src/enrollment.rs:481-510 | The decoder accepts a text if and only if it encodes something |
| `Base64Url.FeedAllKeepsBudget` | crates/misaka-core/src/enrollment.rs:488-504 | The accumulator never holds more bits than it counts, for any text |
| `Base64Url.FeedKeepsBudget` | crates/misaka-core/src/enrollment.rs:499-503 | No step shifts a bit out of the accumulator |
| `Base64Url.AlphabetIsTheRfcTable` | crates/misaka-core/src/enrollment.rs:459-461 | The alphabet is the URL-safe table of section 5 of RFC 4648 |
| `Base64Url.GroupLayout` | crates/misaka-core/src/enrollment.rs:462-479 | Which bits of a group go to which letter, as section 4 of RFC 4648 lays them out |
| `Base64Url.EncodeText` | crates/misaka-core/src/enrollment.rs:462-479 | The encoder loop computes the group-by-group encoding |
| `Base64Url.DecodeText` | crates/misaka-core/src/enrollment.rs:481-510 | The decoder loop computes the streaming decoding, every refusal included |
| `Session.ClientAgreement` | crates/misaka-runtime/src/authenticated_session.rs:92-118 | Over every run on a network that can do anything but forge honest signatures: a client that accepts an honest key has a ServerHello its holder signed after the session began, echoing this session's nonce and presenting the accepted membership and binding |
| `Session.AgreementIsInjective` | crates/misaka-runtime/src/authenticated_session.rs:92-118 | Different sessions never rest on the same answer |
| `Session.ServerAgreement` | crates/misaka-runtime/src/authenticated_session.rs:138-162 | A server that names an honest key as peer has that holder's own ClientHello |
| `Session.AcceptedMaterialIsProven` | crates/misaka-runtime/src/authenticated_session.rs:92-252 | In every run, honest key or not, what a client accepts and what a server names as peer carries the Authority's signature on that very id and key, live and not withdrawn, and the key's own on the far endpoint |
| `Session.ServerIsValidExactly` | crates/misaka-runtime/src/authenticated_session.rs:217-252 | Exactly which ServerHello a client takes, over the signed fields |
| `Session.ClientIsValidExactly` | crates/misaka-runtime/src/authenticated_session.rs:186-215 | Exactly which ClientHello a server takes, over the signed fields |
| `Session.LocalIsValidExactly` | crates/misaka-runtime/src/authenticated_session.rs:164-184 | Exactly which local material is in order |
| `Session.VouchedExactly` | crates/misaka-runtime/src/authenticated_session.rs:186-270 | Certificate, binding, clock and revocation list, field by field |
| `Session.Handshake` | crates/misaka-runtime/src/authenticated_session.rs:92-252 | The two ends run against each other: the client succeeds if and only if each one's material is proven field by field under its own and under the other's Authority, clock and list, the endpoints match and pins name the server; the server names the client exactly when its own half holds |
| `Session.AuthenticateClient` | crates/misaka-runtime/src/authenticated_session.rs:92-118 | Sends a hello exactly with valid local material and succeeds exactly on a ServerHello passing every check: version, Network, nonce, pins, signature, Authority-signed, valid and unrevoked membership, binding to the far endpoint |
| `Session.AuthenticateServer` | crates/misaka-runtime/src/authenticated_session.rs:138-162 | Answers, echoing the nonce, and names the peer exactly when the ClientHello passes every check |
| `Session.MembershipIsRevoked` | crates/misaka-runtime/src/revocation_store.rs:62-83 | Clears a membership exactly when every record of this Network is the Authority's and none withdraws the serial |
| `PeerTable.TableRefinesHistory` | crates/misaka-core/src/peer.rs:89-154 | After any run of upserts and prunes both maps know the same Sisters, and each row is what its history since insertion makes: first address and host, last metrics, latest nickname, endpoints and certificate given |
| `PeerTable.PruneForgetsTheSilent` | crates/misaka-core/src/peer.rs:136-154 | A prune forgets exactly the Sisters whose last word is older than the timeout and leaves other rows alone |
| `PeerTable.PeerStateTable.Upsert` | crates/misaka-core/src/peer.rs:89-113 | The table after one upsert |
| `PeerTable.PeerStateTable.PruneOffline` | crates/misaka-core/src/peer.rs:136-154 | Removes and returns exactly the silent Sisters, each once |

## Left out

- Ed25519, SHA-256, bincode and JSON: signatures and text digests are symbolic and injective; the content and file hashes are arbitrary functions.
- 64-bit wrap-around of clock plus TTL in the Gateway, and of offsets in a copy; only membership serials and the digest's lanes have their machine width.
- Torn writes inside one file operation and missing flushes, except that a nonce or serial write may leave the old text, the new text or an unreadable file, and a copy may stop after any piece.
- JobNetwork.SisterNode.DispatchJob: the Job branch only; the Hello, State and PeerRecords branches, which only maintain the peer set, are one event that sets it arbitrarily.
- Inline execution in the submit path and shell command execution: a result is any value.
- JobManagement: job ids are assumed fresh, as the random ids the code draws are meant to be.
- ContentStore: one digest at a time, with distinct partials that nobody else changes.
- TransferReceiver: one transfer per destination, whose source file does not change, and files that can be removed; what runs under the destination's lock is one step.
- TransferReceiver.StoredAlwaysHasTheDigest: the content store is one stored value here; its own concurrency is in `ContentStore`.
- Session.ServerAgreement: no freshness, because a ClientHello carries only its sender's nonce and can arrive late.
- Enrollment: frame size limits, timeouts and the invite code's prefix and trimming.
- HTTP routing, the relay, mDNS, connection racing, the CLI beyond the copy loop, the simple key and URL stores: input and output around the modelled parts.
