# AgentRAG: a verified model

This project models the parts of AgentRAG where the order of steps, the exact text or the exact count matters, and
proves what they promise. `dafny verify dfyconfig.toml` checks it.

**The upload store.** Resumable uploads live in directories on a shared file system: a manifest and chunks that are
written once, and at most one claim file. `UploadProtocol` is a transition system in which every file-system call of
every operation (initialize, store, claim, release, finalize, sweep, recover, clear) of any number of processes is one
step, and a process may die between any two. `UploadSafety` is its inductive invariant; `UploadTheorems`,
`UploadRuns`, `UploadRecovery` and `UploadCounterexamples` are what follows for claims, crashes and merged files, and
what does not. `UploadAlone`, `UploadFinalizing` and `UploadUpkeep` give the whole effect of each operation that runs
without company, so exactly when it succeeds, and `UploadSuccess` a whole upload. `UploadCapacity`, `UploadCapacityTheorems` and `UploadCapacityRuns` are the tenant's caps under
concurrent, non-atomic scans. `UploadClaims` is the claim file and the judgement of its owner.
`UploadManifest` and `UploadMaintenance` are the sequential parts as loops: the merge, the expiry sweep and the
start-up recovery, with every call able to fail.

**Feedback.** `PromiseLock` with `PromiseLockTheorems` is the promise-chain lock with callbacks in any order;
`FeedbackFile` runs appends and redactions of the JSONL file under it, call by call.

**The answer stream.** `EventStream` is the client's parser over a growing buffer, `StreamChat` the reading of network
chunks, `EventBlocks` what a block says, `EventStreamTheorems` the comparison with a line-by-line reader and with the server's
writer. It follows a
subset of the event stream format of the HTML Living Standard (sections 9.2.5 and 9.2.6); a lone CR is no line end here.

**Tokens.** `Base64Url` (section 5 of RFC 4648) and `JwtToken` (compact HS256 tokens, section 7.1 of RFC 7515, with the
time claims of sections 4.1.4 and 4.1.5 of RFC 7519).

**Evaluation.** `PairedBootstrap` with `SeededDraws`, `BootstrapTheorems` and `Sorting`; `AnswerMetrics`; `CanonicalJson` with
`KeyedLists` and `CanonicalText`; `Evidence` with `EvidenceTheorems` and `EvidenceContent` (what a run writes into its report and what a gate reads out of it);
`GitStatus`; `Projection`; `SuiteValidator` with the harness it validates; `BucketFold`, `OperationsReport`,
`OperationsFold`, `OperationsTheorems` and `OperationsCounts`.

`Common`, `JsText` and `Totals` are shared helpers. JavaScript numbers are exact integers or reals; rounding is a
function parameter, monotone where that is needed. Times, random bytes, digests, JSON texts, UTF-8 and name patterns are
parameters with the laws each lemma names. A law that speaks of JSON texts or digests speaks of the trees at hand: that
JSON writes and reads back a token's two trees (`JwtToken.TokenTravels`), or that two given trees have one digest
(`Evidence.Collide`).

## What the upload protocol assumes

- A recursive removal of a session directory is one step. Temporary files, links and unlinks are separate steps.
- The claiming again of a crashed holder's session starts with no recovery of another process under way.
- All processes share one process-id space, as on one machine. The recovery decides by process id;
  `UploadTheorems.RecoveryJudgesOwners` says exactly when it is wrong.
- Recoveries do not overlap (`State.soleRecovery`). They may, and then a running holder can lose its claim:
  `UploadCounterexamples.OverlappingRecoveriesBreakAClaim`. `UploadRecovery.UnlinkTakesARunningClaimIff` says when.
- Only the holder of a claim releases, finalizes or clears with it, and releases once. The tenant erase is not running.
- Random tokens are unique; the identity hash names one session.
- The first, unlocked manifest read of an initialization is one step with the locked read that repeats it.

## What does not hold as one might expect

- Of the paths out of the sweep's loop body, three leave the sweep's own claim behind when a call fails; a failing unlink
  of the temporary file is enough (`UploadMaintenance.ClaimIsLeftOnlyByAFailure`).
- A finalize claim can sit on an incomplete set after an expiry (`UploadCounterexamples.ExpiryCanLeaveAnIncompleteClaim`);
  it sits on the full set if the directory is the one that was listed (`UploadTheorems.ClaimedSetIsFull`), and on exactly
  the full set if this session was never removed before (`UploadRuns.ClaimedSetIsExact`).
- The comment at server/upload-session-store.js:389-393 states the cap overrun for any number of processes; it holds as
  stated, also for scans that are not atomic, and the overrun is reached (`UploadCapacityRuns.SessionBoundIsReached`,
  `UploadCapacityRuns.ByteBoundIsReached`).
- An append that fails before its line end spoils the next record (`FeedbackFile.PartialAppendSpoilsTheNext`); an
  append has a line of its own exactly if the file is empty or ends in a line end (`FeedbackFile.AppendHasItsOwnLineIff`).
- A token signed with a secret that has white space around it is refused under the same configuration, because verifying
  trims the secret and signing does not (`JwtToken.VerifyCreated`). A time claim that is no number never
  expires a token (`JwtToken.ExpiresSometimeIff`).
- Evidence of a report type that only its normalization makes known, such as one with spaces around it, can be refused
  as config_hash_mismatch (`EvidenceTheorems.UnstableTypeMismatches`, `EvidenceTheorems.SpacedTypeIsRefused`); for every
  other type it never is. Configurations that differ only in undefined against null array items have one hash.
- Covering is not transitive for expected trees with undefined fields (`Projection.TransitiveIff`); no tree read from
  JSON has one.
- A bootstrap with zero iterations raises. Swapping the arms mirrors the interval exactly if the number of samples is no
  multiple of 40; the default, 4000, is one (`BootstrapTheorems.SwapMirrorsIff`).
- A model call whose operation has white space around llm_completion is in that operation's bucket, but in no template's
  (`OperationsTheorems.CompletionsAreABucketIff`).
- In the event fold a status named like a member every JavaScript object inherits (`constructor`) is not counted as a
  number, and an operation of such a name, or a null annotation or alert, makes the report raise
  (`OperationsTheorems.CountsSumToTheTotal`, `OperationsFold.ModelCalls.AddAll`).

## Model

| member | source | states |
|---|---|---|
| UploadProtocol.StepInstall | server/upload-session-store.js:229-252 | a write-temp, link or unlink call touches one session only, and never removes it, a merged file or the log |
| UploadProtocol.StepInit | server/upload-session-store.js:588-630 | an initialization touches its own session only |
| UploadProtocol.StepStore | server/upload-session-store.js:766-854 | a chunk store touches its own session only (what it stores: UploadAlone.StoreAlone) |
| UploadProtocol.StepClaim | server/upload-session-store.js:703-743 | a claim attempt touches its own session only |
| UploadProtocol.StepSweeping | server/upload-session-store.js:1228-1252 | a sweep that has no claim yet touches its own session only |
| UploadProtocol.StepSweeper | server/upload-session-store.js:1254-1284 | a sweep under its claim touches its own session only; at its removal it takes the whole directory as expired, and never a merged file |
| UploadProtocol.StepRecover | server/upload-session-store.js:1076-1134 | a recovery touches its own session only, and removes none |
| UploadProtocol.CompleteListing | server/upload-session-store.js:856-866 | the completeness check holds exactly if the listed indices are 0 to totalChunks-1 |
| UploadSafety.ApplyKeepsInv | server/upload-session-store.js:229-1289 | every label of any operation, crash or start keeps the invariant: exclusive claims, frozen chunk sets, exact merge progress, recoveries that judge right |
| UploadSafety.StepIsGood | server/upload-session-store.js:229-1289 | one file-system call changes other operations' knowledge in no way, and a directory only by growing, by its holder, or by the recovery of a dead claim |
| UploadSafety.LinkIsGood | server/upload-session-store.js:229-252 | the link is an atomic create-if-absent: it makes a holder only where no claim was, and overwrites nothing |
| UploadSafety.RecoverIsGood | server/upload-session-store.js:1058-1140 | the read and the unlink of a sole recovery never hit a running owner's claim |
| UploadSafety.FinMergeIsGood | server/upload-session-store.js:868-960 | each merge step extends the output by exactly the next chunk of a frozen set |
| UploadSafety.ReachableInv | server/upload-session-store.js:229-1289 | the invariant holds in every reachable state of every interleaving |
| UploadTheorems.AtMostOneHolder | server/upload-session-store.js:703-764 | a session has at most one claim holder, whose process runs and whose claim is the one on disk |
| UploadTheorems.ClaimEndsByHolderOrDeath | server/upload-session-store.js:745-764 | a claim leaves the disk only by its own holder, or by the recovery, and then its owner is dead |
| UploadTheorems.RecoveryJudgesOwners | server/upload-session-store.js:1030-1056 | judging by process id never takes a running owner for dead; it takes a dead one for running exactly if its process id is in use again elsewhere |
| UploadTheorems.ClaimedSetIsFull | server/upload-session-store.js:703-743 | a finalize claim sits on all prescribed chunks if the directory is still the one the claim listed |
| UploadTheorems.ApplyPreserves | server/upload-session-store.js:229-252 | write-once: after one label every directory is there with all it held, or was removed with all it held; merged files never change |
| UploadTheorems.RunPreserves | server/upload-session-store.js:229-252 | the same over whole runs |
| UploadTheorems.CrashSafety | server/upload-session-store.js:868-1005 | if this session does not expire and is not cleared in between, whatever it held is later still there, or in a complete merged file, whichever processes crashed and whatever happened to other sessions |
| UploadTheorems.FinalizeWritesTheSession | server/upload-session-store.js:868-1005 | the step that publishes a merge writes exactly the session's chunks, exactly fileSize bytes, under the holder's claim, and never over an existing file |
| UploadTheorems.MergedFilesAreTheSources | server/upload-session-store.js:766-1005 | with clients that send slices of a declared file in any order, repeated and retried, every merged file is that file, in every run |
| UploadRuns.ClaimedSetIsExact | server/upload-session-store.js:703-743 | a finalize claim of a session that was never removed sits on exactly the prescribed chunks, no more and no less |
| UploadRuns.UnclaimedIsClaimable | server/upload-session-store.js:703-743 | a complete, unclaimed session can be claimed: the operation run alone ends with the claim |
| UploadRuns.RecoveryFrees | server/upload-session-store.js:1058-1140 | a recovery run alone frees a session whose owner looks dead |
| UploadRuns.CrashedFinalizeIsClaimable | server/upload-session-store.js:962-1140 | after a crash at any step of a finalize, a recovery and a new claim succeed on the untouched manifest and chunks, by the restarted process under the old or a new process id, or by any other |
| UploadAlone.InitAlone | server/upload-session-store.js:588-630 | run alone, an initialization opens the session with its manifest exactly if there is none |
| UploadAlone.StoreAlone | server/upload-session-store.js:766-842 | run alone, a chunk store adds the data as chunk k exactly if the session is open and unclaimed, index and count fit, the data have the chunk's size (short for the last one) and the chunk is not there; else nothing changes |
| UploadAlone.ClaimAlone | server/upload-session-store.js:703-743 | run alone, a claim is granted exactly to an open, unclaimed session whose chunks are exactly 0 to totalChunks-1; else nothing changes |
| UploadFinalizing.FinalizeAlone | server/upload-session-store.js:868-1005 | run alone, a finalize publishes exactly if the session is open under its claim, its chunks are exactly the prescribed ones at their sizes, a declared digest matches and the destination is free: then it holds the chunks in index order, and the directory is gone exactly if cleanup was asked for; else nothing changes and the token stays |
| UploadFinalizing.ReleaseAlone | server/upload-session-store.js:745-764 | run alone, a release takes off exactly the caller's own claim |
| UploadFinalizing.ClearAlone | server/upload-session-store.js:1007-1014 | run alone, a clear removes the session |
| UploadUpkeep.SweepAlone | server/upload-session-store.js:1220-1285 | run alone, a sweep removes a session exactly if it is unclaimed, old at both looks and the removal works; else everything stays and no claim of its own |
| UploadUpkeep.RecoverAlone | server/upload-session-store.js:1076-1134 | run alone, a recovery takes off a claim exactly if its owner looks dead |
| UploadSuccess.SendsAll | server/upload-session-store.js:766-842 | stored one after the other in any order, repeated or resumed, the slices of a file are exactly what the session has then |
| UploadSuccess.AllSentIsComplete | server/upload-session-store.js:766-866 | and the session can be claimed exactly if every chunk was sent or there before |
| UploadSuccess.UploadSucceeds | server/upload-session-store.js:588-1005 | a client that opens, sends every slice in any order, claims and finalizes to a free destination gets exactly its file there |
| UploadCounterexamples.OverlappingRecoveriesBreakAClaim | server/upload-session-store.js:1058-1140 | two overlapping recoveries can unlink the claim of a running holder: a run that shows it |
| UploadRecovery.ReadJudges | server/upload-session-store.js:1043-1056 | even when recoveries overlap, the read of one never takes a running owner for dead |
| UploadRecovery.UnlinkTakesARunningClaimIff | server/upload-session-store.js:1116-1134 | however recoveries overlap, an unlink takes a running owner's claim exactly if the claim on disk is no longer the one that was read, and its owner runs |
| UploadCounterexamples.ExpiryCanLeaveAnIncompleteClaim | server/upload-session-store.js:703-743 | a claim can be installed on an incomplete set when the session expires and is opened again between the listing and the link: a run that shows it |
| UploadCapacityTheorems.CapsHold | server/upload-session-store.js:389-417 | with P processes and scans that are not atomic, open sessions plus creations past the check stay within maxSessions+P-1 and their bytes within maxBytes+(P-1) largest files; exact for one process |
| UploadCapacityRuns.AllPass | server/upload-session-store.js:548-570 | if one more session fits on top of what is on disk, P processes can each pass the check for one |
| UploadCapacityRuns.SessionBoundIsReached | server/upload-session-store.js:389-393 | for every session cap and every P a run reaches maxSessions+P-1, if files of one byte fit the byte cap |
| UploadCapacityRuns.ByteBoundIsReached | server/upload-session-store.js:389-393 | for every byte cap of at least a largest file, and every P, a run reaches maxBytes+(P-1) largest files, if the session cap admits enough sessions to fill the byte cap |
| UploadCapacityTheorems.LoadCountsSessions | server/upload-session-store.js:428-470 | the load the caps bound is the number of open sessions and pending creations |
| UploadCapacity.ReadKeepsInv | server/upload-session-store.js:428-470 | reading one listed manifest keeps the scan invariant: what a scan has counted and has still to read covers every session open since it listed |
| UploadCapacity.ApplyKeepsInv | server/upload-session-store.js:548-630 | every step of every creation or removal keeps the scan invariant |
| UploadCapacity.LoadIsBounded | server/upload-session-store.js:389-417 | a state with the scan invariant has a load within cap and slack |
| UploadManifest.TotalIsRightIffItPartitions | server/upload-session-store.js:329-336 | the demanded number of chunks is the only one that cuts the file into full chunks and a non-empty rest |
| UploadManifest.AcceptedPartitions | server/upload-session-store.js:276-345 | accepted metadata cut the file within all published limits |
| UploadManifest.AcceptedIff | server/upload-session-store.js:276-345 | metadata are accepted exactly if nothing is wrong with them, and rejected for the first thing that is, in the order of the checks |
| UploadManifest.SizeBeforeClosed | server/upload-session-store.js:373-376 | the expected chunk sizes sum to index*chunkSize, and to fileSize at the end |
| UploadManifest.MergeChunks | server/upload-session-store.js:868-935 | the merge loop succeeds exactly if every chunk has its size and they sum up, writes the chunks in order, and else names the first bad chunk or the size reached |
| UploadManifest.SlicesConcat | server/upload-session-store.js:868-935 | slices in index order concatenate to the prefix of the file |
| UploadManifest.MergeOfSlicesIsTheFile | server/upload-session-store.js:868-935 | merging the slices of a file gives the file |
| UploadMaintenance.NewestOf | server/upload-session-store.js:1144-1174 | the activity loop finds the newest modification time, at least 0 |
| UploadMaintenance.OldIffNewestIs | server/upload-session-store.js:1250-1252 | comparing the newest time with the TTL is asking every entry's age |
| UploadMaintenance.SessionStore.ReleaseClaim | server/upload-session-store.js:1176-1193 | only a claim with the given token is removed, and nothing else changes |
| UploadMaintenance.SessionStore.InstallClaim | server/upload-session-store.js:229-252 | the claim is linked exactly if none is there and no call before the link failed; a failing unlink raises after the link |
| UploadMaintenance.SessionStore.SweepOne | server/upload-session-store.js:1220-1285 | one loop body, whatever calls fail and whatever others do: exactly what becomes of the session, its files and its claim |
| UploadMaintenance.SessionStore.SweepClaimed | server/upload-session-store.js:1264-1284 | under its claim the sweep removes the session exactly if it is still past the TTL and no call fails; else it keeps every file and releases its claim unless a release call fails |
| UploadMaintenance.SweepKeepsFiles | server/upload-session-store.js:1220-1285 | a session that stays keeps all its files; only the sweep's temporary file can come on top, if it could not be unlinked |
| UploadMaintenance.SessionStore.Cleanup | server/upload-session-store.js:1195-1289 | the sweep does that to every listed session, nothing to others, and counts exactly the sessions it removed |
| UploadMaintenance.SessionStore.RecoverOne | server/upload-session-store.js:1076-1134 | one loop body of the recovery |
| UploadMaintenance.SessionStore.Recover | server/upload-session-store.js:1058-1140 | the recovery frees exactly the sessions whose claim is unreadable as a claim or whose owner is gone, and counts them |
| UploadMaintenance.ClaimedIsNeverSwept | server/upload-session-store.js:1228-1265 | a session under any claim at the first look or at the link is never removed by the sweep |
| UploadMaintenance.ClaimIsLeftOnlyByAFailure | server/upload-session-store.js:1254-1284 | the sweep can leave its own claim behind exactly if one of three calls fails, the unlink of the temporary file among them |
| UploadMaintenance.RecoveryLeavesOwnedClaims | server/upload-session-store.js:1076-1134 | a claim survives the recovery exactly if its owner seems to run, or a call failed |
| UploadMaintenance.UndisturbedSweep | server/upload-session-store.js:1195-1289 | undisturbed, the sweep removes exactly the unclaimed sessions whose every entry is past the TTL |
| PromiseLockTheorems.ApplyKeepsInv | server/feedback.js:476-489 | every arrival, start, end and clean-up keeps the chain: each work waits for the one before it or none is left |
| PromiseLockTheorems.ArrivalOrder | server/feedback.js:476-489 | mutual exclusion in arrival order, per key |
| PromiseLockTheorems.ForgottenOnlyWhenFree | server/feedback.js:476-489 | the map entry is gone only if nobody works or waits |
| PromiseLockTheorems.FirstInLineMayGo | server/feedback.js:476-489 | no work waits for ever: the first unfinished one runs or may start |
| PromiseLockTheorems.LastOneForgets | server/upload-session-store.js:396-417 | once all have ended, the last one's clean-up deletes the entry |
| JsText.JoinOfSplit | server/feedback.js:547-575 | splitting into lines and joining gives the text back |
| JsText.SplitOfConcat | server/feedback.js:547-575 | splitting a concatenation glues the last part of one to the first of the other |
| JsText.SplitOfFirst | server/feedback.js:547-575 | the text before the first separator is the first part |
| FeedbackFile.OtherTenantsLine | server/feedback.js:79-90 | a line of another tenant, or one that does not parse, is kept byte for byte |
| FeedbackFile.OnlyCitationsChange | server/feedback.js:547-570 | a redacted line stays one line, and its record differs in its citations only |
| FeedbackFile.RedactionIs | server/feedback.js:79-90 | on the fields of record and scope: a line of another user or workspace, without a needle, or unchanged by the redaction stays byte for byte; one of the very pair becomes its record with the redacted citations |
| FeedbackFile.RedactedCounts | server/feedback.js:537-582 | the returned count is the number of rewritten lines |
| FeedbackFile.FeedbackStore.RecordFeedback | server/feedback.js:513-521 | an append, whole or cut short, adds exactly what was written |
| FeedbackFile.FeedbackStore.RedactDocumentReferences | server/feedback.js:526-582 | a redaction replaces exactly the lines it redacts, counts them, and leaves the file alone if a call fails |
| FeedbackFile.ArrivalOrderAtAllTimes | server/feedback.js:476-582 | at any moment of any schedule the file is what some first part of the works, in arrival order, would have left |
| FeedbackFile.EveryScheduleIsSequential | server/feedback.js:476-582 | every finished schedule leaves the file of the sequential run in arrival order |
| FeedbackFile.EveryScheduleKeepsTheLines | server/feedback.js:476-582 | and so exactly the lines of the sequential run |
| FeedbackFile.FoldHolds | server/feedback.js:498-582 | works on the file are works on its lines |
| FeedbackFile.LinesStay | server/feedback.js:526-582 | a line stays at its place, changed by redactions only |
| FeedbackFile.NoAppendIsLost | server/feedback.js:513-521 | no append is lost: each gives one line after those before it |
| FeedbackFile.OtherTenantsKeepTheirLines | server/feedback.js:526-582 | a line outside every redaction's scope survives any schedule byte for byte |
| FeedbackFile.RedactionReachesTheFile | server/feedback.js:476-582 | and so for every line of the file, under every schedule of appends around a redaction |
| FeedbackFile.AppendHasItsOwnLineIff | server/feedback.js:513-521 | a whole append gets a line of its own exactly if the file is empty or ends in a line end; all lines before the last one stay |
| FeedbackFile.PartialAppendSpoilsTheNext | server/feedback.js:513-521 | an append that fails before its line end shares its line with the next record |
| EventStream.SeparatorMatches | src/archiveApi.js:205 | what splits the buffer is a match of the separator pattern |
| EventStream.SeparatorIsLeftmost | src/archiveApi.js:205 | it is the leftmost match, and there is none only if nothing matches |
| EventStream.ParseBlock | src/archiveApi.js:207-223 | the loop over the lines of a block gives its event |
| EventStream.ParseServerSentEvents | src/archiveApi.js:204-227 | all events of the buffer, and the unread rest |
| StreamChat.ParseOnFromRest | src/archiveApi.js:270-277 | reading on from the rest gives what reading everything at once gives |
| StreamChat.ChunkingIsInvisible | src/archiveApi.js:270-277 | however a text is cut into chunks, the events and the rest are those of the whole text |
| StreamChat.DeliverLoop | src/archiveApi.js:279-290 | the loop over the events of one chunk, ended by an error event |
| StreamChat.StreamChat | src/archiveApi.js:266-297 | whatever the chunks, the same notifications and the same outcome as parsing the whole text at once |
| StreamChat.DeliveredAnswers | src/archiveApi.js:279-297 | the answer read off the events: it fails exactly if some event is an error, with the first one's data and the progress before it; else it gives the last result's data, if that is truthy, after all progress in order |
| EventStreamTheorems.SplittingIsReadingLines | src/archiveApi.js:204-227 | splitting at blank lines gives exactly the events of a line-by-line reader, on every text with mixed line ends |
| EventStreamTheorems.ReadingIsWriting | server/routes/chat.js:186-194 | what the server writes, keep-alive comments included, is what the client reads, however it is cut |
| EventStreamTheorems.ResultReachesTheCaller | server/routes/chat.js:187-250 | the result the route writes resolves the request, after all its progress, however the stream is cut |
| EventStreamTheorems.ErrorReachesTheCaller | server/routes/chat.js:187-250 | the first error the route writes fails the request, after the progress before it |
| EventBlocks.BlockMeans | src/archiveApi.js:208-217 | a block is named by its last event line, else message; its data are its data lines, left-trimmed, in order |
| EventBlocks.BlockGives | src/archiveApi.js:208-224 | a block gives one event exactly if it has data that parse, joined by line feeds |
| Base64Url.DecodeOfEncode | server/auth-jwt.js:41-53 | decoding undoes encoding for every byte sequence, with the padding recomputed |
| Base64Url.EncodeIsInjective | server/auth-jwt.js:41-46 | no two byte sequences share a text |
| Base64Url.EncodeAlphabet | server/auth-jwt.js:41-46 | letters, digits, - and _ only, and as many as needed |
| Base64Url.PaddingIsRestored | server/auth-jwt.js:48-53 | the recomputed padding is the stripped one |
| Base64Url.UnbaseOfBase | server/auth-jwt.js:48-53 | padded base64 reads back |
| Base64Url.TestVectors | server/auth-jwt.js:41-46 | the vectors for f, fo and foo of section 10 of RFC 4648 |
| Base64Url.AlphabetIs | server/auth-jwt.js:41-46 | the characters of the URL-safe alphabet |
| JsText.SplitOfJoin | server/auth-jwt.js:93-108 | splitting a joined path gives its keys |
| JwtToken.CreatedParts | server/auth-jwt.js:77-93 | a created token splits into its three parts and has no white space |
| JwtToken.VerifyCreated | server/auth-jwt.js:134-226 | the outcome of verifying a created token: refused for another algorithm or another trimmed secret, else that of the claim checks |
| JwtToken.CreatedTokenIsAcceptedIff | server/auth-jwt.js:134-226 | it is accepted exactly if its payload is acceptable, and then names that payload's user and workspace |
| JwtToken.ExpiresSometimeIff | server/auth-jwt.js:124-132 | a token is refused as expired at some time exactly if its exp claim is a number (or minus infinity); one that is no number never expires it |
| JwtToken.AcceptedBetween | server/auth-jwt.js:124-132 | a created token, acceptable in all else, is accepted exactly from its nbf on and before its exp; with the cases of an absent, non-numeric or infinite claim |
| JwtToken.ExpiryIsForGood | server/auth-jwt.js:124-132 | once refused as expired, a token is refused as expired at every later time |
| JwtToken.ClaimFollowsPath | server/auth-jwt.js:98-112 | a dotted claim path reads exactly the value it leads to, object by object |
| JwtToken.RevokedByList | server/auth-jwt.js:27-39 | a revocation list revokes exactly the non-empty texts its entries read as |
| JwtToken.RevokedByText | server/auth-jwt.js:27-39 | a comma-separated text revokes exactly its non-empty trimmed parts |
| JwtToken.RevokedIdIsRefused | server/auth-jwt.js:204-206 | a token whose id is on the revocation list is never accepted |
| JwtToken.RefusedFor | server/auth-jwt.js:182-212 | claims are refused for the first check that fails, in the order of the code |
| JwtToken.AcceptedIsSigned | server/auth-jwt.js:134-226 | any accepted token carries the signature of its first two parts, and its claims come from them |
| JwtToken.AudienceInList | server/auth-jwt.js:114-122 | the expected audience is found exactly if some entry of the list reads so |
| Sorting.SortIsSortedPermutation | server/evaluation/paired-bootstrap.js:48 | the sorted samples are the samples in ascending order |
| Sorting.AscendingIsUnique | server/evaluation/paired-bootstrap.js:48 | there is only one such list, whatever the algorithm |
| Sorting.SortOfNegated | server/evaluation/paired-bootstrap.js:48 | negating mirrors the sorted list |
| PairedBootstrap.SeededRandom.Next | server/evaluation/paired-bootstrap.js:10-19 | the next state and the next draw, in [0, 1); what they are: the SeededDraws rows |
| SeededDraws.StateIs | server/evaluation/paired-bootstrap.js:10-14 | after k draws the state is the seed plus k times 0x6d2b79f5 modulo 2^32 |
| SeededDraws.StatesDiffer | server/evaluation/paired-bootstrap.js:10-14 | no state comes twice among 2^32 draws |
| SeededDraws.FirstDraws | server/evaluation/paired-bootstrap.js:10-19 | the first three draws for seed 1 |
| SeededDraws.SeedIs | server/evaluation/paired-bootstrap.js:11 | a seed counts modulo 2^32 |
| SeededDraws.DeltaIsTheMean | server/evaluation/paired-bootstrap.js:96-106 | the reported delta is the rounded mean of the differences |
| BootstrapTheorems.SumByHits | server/evaluation/paired-bootstrap.js:38-45 | a resample sums each value as often as draws fall in its part of the unit interval |
| PairedBootstrap.Pick | server/evaluation/paired-bootstrap.js:42-44 | every drawn index is in range |
| PairedBootstrap.ResampleMean | server/evaluation/paired-bootstrap.js:38-45 | one resample consumes as many draws as there are values |
| PairedBootstrap.BootstrapMeanInterval | server/evaluation/paired-bootstrap.js:28-51 | the interval of the resampled means, from exactly iterations*n draws |
| PairedBootstrap.ResampleClusters | server/evaluation/paired-bootstrap.js:77-87 | one resample of clusters, one draw each |
| PairedBootstrap.BootstrapClusterMeanInterval | server/evaluation/paired-bootstrap.js:63-93 | the clustered interval, from exactly iterations draws for each non-empty cluster |
| PairedBootstrap.PairedDeltaOfDiffs | server/evaluation/paired-bootstrap.js:96-106 | count, interval and rounded mean of the differences, for the seed's draws |
| BootstrapTheorems.SingletonClustersArePlain | server/evaluation/paired-bootstrap.js:53-62 | one value per cluster: the clustered interval is the plain one for the same draws |
| BootstrapTheorems.ClusterIntervalWithinData | server/evaluation/paired-bootstrap.js:63-93 | round(lo) <= low <= high <= round(hi) for bounds of the data and monotone rounding; null exactly without data |
| BootstrapTheorems.IntervalWithinData | server/evaluation/paired-bootstrap.js:28-51 | the same for the plain interval |
| BootstrapTheorems.RaisesIff | server/evaluation/paired-bootstrap.js:51 | only zero iterations raise |
| BootstrapTheorems.IntervalFollowsTheData | server/evaluation/paired-bootstrap.js:63-93 | shifted and positively scaled data shift and scale the interval before its rounding |
| BootstrapTheorems.SwappedArms | server/evaluation/paired-bootstrap.js:63-93 | swapping the arms negates the data and takes the mirrored ranks |
| BootstrapTheorems.SwappedRanks | server/evaluation/paired-bootstrap.js:51 | the two ranks mirror each other exactly if the number of samples is no multiple of 40; else they are one rank off |
| BootstrapTheorems.SwapMirrorsIff | server/evaluation/paired-bootstrap.js:63-93 | swapping the arms negates and mirrors the unrounded interval for all data and draws exactly if the number of samples is no multiple of 40 |
| BootstrapTheorems.SelfDiffs | server/evaluation/paired-bootstrap.js:109-116 | a run against itself has no difference exactly if rows sharing an id share the value |
| BootstrapTheorems.LastRowCounts | server/evaluation/paired-bootstrap.js:109-116 | of several rows with one id the last one counts |
| BootstrapTheorems.UnpairedRowsDoNotCount | server/evaluation/paired-bootstrap.js:109-116 | rows without a partner do not count |
| BootstrapTheorems.DiffsOf | server/evaluation/paired-bootstrap.js:109-116 | a paired row gives its value minus its partner's, in order |
| BootstrapTheorems.SelfComparisonIsZero | server/evaluation/paired-bootstrap.js:96-116 | and then delta and interval are those of no difference |
| AnswerMetrics.CountTokens | server/evaluation/qasper-answer-metrics.js:40-44 | the counts map holds each gold token's number |
| AnswerMetrics.CountShared | server/evaluation/qasper-answer-metrics.js:46-55 | the decrementing loop counts the multiset intersection |
| AnswerMetrics.TokenF1 | server/evaluation/qasper-answer-metrics.js:32-65 | the score is 2*same over the sum of both lengths, with the two empty cases |
| AnswerMetrics.F1IsSymmetric | server/evaluation/qasper-answer-metrics.js:32-65 | the score is symmetric |
| AnswerMetrics.F1IgnoresOrder | server/evaluation/qasper-answer-metrics.js:32-65 | the order of the tokens does not matter |
| AnswerMetrics.F1Range | server/evaluation/qasper-answer-metrics.js:32-65 | in [0,1]; 1 exactly for equal token multisets; 0 exactly without a shared token |
| AnswerMetrics.AnswerF1 | server/evaluation/qasper-answer-metrics.js:67-70 | the best score over the references |
| AnswerMetrics.PerfectAnswer | server/evaluation/qasper-answer-metrics.js:67-70 | 1 exactly if some reference has the very tokens |
| AnswerMetrics.PageListIsSorted | server/evaluation/qasper-answer-metrics.js:126-129 | exactly the positive pages, each once, in order |
| AnswerMetrics.EvidenceMeaning | server/evaluation/qasper-answer-metrics.js:157-172 | precision is the share of cited pages that are evidence; the hits are non-empty intersections; an abstention cites nothing |
| AnswerMetrics.PrecisionIsOneIff | server/evaluation/qasper-answer-metrics.js:157-172 | precision is 1 exactly if every cited page is evidence |
| KeyedLists.SortOrders | server/evaluation/eval-evidence.js:15-30 | sorting by key orders the keys and keeps the map |
| KeyedLists.AscendingIsUnique | server/evaluation/eval-evidence.js:15-30 | an ordered list is determined by its map |
| CanonicalJson.CanonMeansTheSame | server/evaluation/eval-evidence.js:15-30 | canonicalizing keeps the meaning: objects as maps of their defined fields, at every depth |
| CanonicalJson.CanonIsCanonical | server/evaluation/eval-evidence.js:15-30 | the result has sorted keys and no undefined field at any depth |
| CanonicalJson.CanonicalIsUnique | server/evaluation/eval-evidence.js:15-30 | canonical trees of one meaning are one tree |
| CanonicalJson.NormalForm | server/evaluation/eval-evidence.js:15-36 | equal canonical forms exactly for trees equal up to key order and undefined fields |
| CanonicalJson.CanonIsIdempotent | server/evaluation/eval-evidence.js:15-30 | canonicalizing twice is canonicalizing once |
| CanonicalJson.SanitizedIsClean | server/evaluation/eval-evidence.js:104-118 | no secret key and no undefined field is left at any depth |
| CanonicalJson.SanitizeIsIdempotent | server/evaluation/eval-evidence.js:104-118 | sanitizing twice is sanitizing once |
| CanonicalJson.SanitizeRespectsMeaning | server/evaluation/eval-evidence.js:104-118 | what sanitizing leaves depends on the meaning only |
| CanonicalJson.SanitizeCommutes | server/evaluation/eval-evidence.js:15-118 | sanitizing and canonicalizing commute |
| CanonicalJson.LeftOutFieldsDoNotShow | server/evaluation/eval-evidence.js:38-57 | the content of a corpus does not depend on the fields left out |
| CanonicalJson.StableMeans | server/evaluation/eval-evidence.js:38-57 | every other field stays, with the content of its value, at every depth |
| CanonicalText.WrittenCommutes | server/evaluation/eval-evidence.js:32-36 | what JSON writes of a canonical tree is the canonical form of what it writes: undefined items become null |
| CanonicalText.SameTextIff | server/evaluation/eval-evidence.js:32-36 | two trees have one canonical text exactly if what is written of them means the same |
| CanonicalText.UndefinedItemsReadAsNull | server/evaluation/eval-evidence.js:32-36 | an undefined and a null array item have one text, so one hash, though not one canonical form |
| EvidenceTheorems.ConfigIgnoresEvidence | server/evaluation/eval-evidence.js:413-484 | attaching evidence does not change the report's public configuration |
| EvidenceTheorems.HashIsReadBack | server/evaluation/eval-evidence.js:486-506 | the written configuration hash is the one the reader computes, for a report type that normalization does not move to other fields |
| EvidenceTheorems.NeverConfigHashMismatch | server/evaluation/eval-evidence-validation.js:136-145 | default evidence of such a type is never refused as config_hash_mismatch |
| EvidenceTheorems.UnstableTypeMismatches | server/evaluation/eval-evidence.js:344-506 | for any other type some report's evidence, perfect in all else, is refused as config_hash_mismatch, unless two different texts have one digest: one report shows it for all types |
| EvidenceTheorems.StableIff | server/evaluation/eval-evidence.js:267-268 | a report type is stable exactly if its normalization does not change it, or names no known type |
| EvidenceTheorems.SpacedTypeIsRefused | server/evaluation/eval-evidence-validation.js:136-145 | a concrete unstable type: synthetic with a space on both sides |
| EvidenceTheorems.ConfigDecides | server/evaluation/eval-evidence-validation.js:136-145 | for a run that fits in all else the verdict is ok, config_hash_mismatch or the TypeError of the configuration, by the two hashes |
| EvidenceTheorems.AcceptedIff | server/evaluation/eval-evidence-validation.js:60-181 | evidence is accepted exactly if the run is the one the reader asks for |
| EvidenceTheorems.ReasonIsFirstWrong | server/evaluation/eval-evidence-validation.js:60-181 | the verdict is ok exactly if nothing is wrong, and else the first thing that is wrong, reason by reason in the order of the checks |
| EvidenceContent.SyntheticShows | server/evaluation/eval-evidence.js:421-445 | a synthetic report's configuration shows exactly the listed fields, and its retrieval's, if it has any |
| EvidenceContent.RerankShows | server/evaluation/eval-evidence.js:447-458 | a rerank report's shows exactly the listed fields |
| EvidenceContent.IdsShown | server/evaluation/eval-evidence.js:460-466 | the ids shown are exactly the truthy ones of the items |
| EvidenceContent.CasesShow | server/evaluation/eval-evidence.js:460-466 | planner, trajectory and recovery reports show case ids, provider and version, with their defaults |
| EvidenceContent.RuntimeSmokeShows | server/evaluation/eval-evidence.js:468-473 | runtime smoke reports show planners and version |
| EvidenceContent.RolloutShows | server/evaluation/eval-evidence.js:475-481 | rollout reports show check ids, required runtime and version |
| EvidenceContent.OtherShows | server/evaluation/eval-evidence.js:483 | any other report shows its whole configuration |
| EvidenceContent.EvidenceCarries | server/evaluation/eval-evidence.js:344-411 | evidence carries the run's own texts, as far as they have no white space |
| EvidenceTheorems.GivenConfigIff | server/evaluation/eval-evidence.js:344-412 | evidence of a given configuration, perfect in all else, is accepted exactly if what JSON writes of it means the same as what it writes of the report's own, or the digests collide |
| GitStatus.GetNullDelimitedPaths | server/evaluation/eval-evidence.js:137-161 | the index-skipping loop collects the paths |
| GitStatus.RecordsArePrinted | server/evaluation/eval-evidence.js:137-138 | what git prints splits into its records |
| GitStatus.ReadingIsPrinting | server/evaluation/eval-evidence.js:137-161 | for every list of entries, renames and copies included, exactly their paths in order |
| GitStatus.DirtyIff | server/evaluation/eval-evidence.js:163-204 | a checkout is dirty exactly if some entry names a path outside the evaluation's outputs |
| GitStatus.ControlledIff | server/evaluation/eval-evidence.js:120-123 | the evaluation's outputs are what lies in its two output directories |
| Projection.NoMismatchIffCovers | server/evaluation/quality-check-suite-integrity.js:10-79 | no mismatch exactly if the actual tree covers the expected one at every depth |
| Projection.MismatchesAreReal | server/evaluation/quality-check-suite-integrity.js:10-79 | each mismatch names a place where it does not |
| Projection.CoversIsReflexive | server/evaluation/quality-check-suite-integrity.js:10-79 | every tree covers itself |
| Projection.CoversIsTransitive | server/evaluation/quality-check-suite-integrity.js:10-79 | covering is transitive down to a tree without undefined fields |
| Projection.TransitiveIff | server/evaluation/quality-check-suite-integrity.js:10-79 | and exactly down to such trees: an undefined field breaks it |
| Projection.ValidateResponseProjections | server/evaluation/quality-check-suite-integrity.js:92-127 | one error for each expected projection its case does not cover, in order |
| SuiteValidator.ValidateSuite | server/evaluation/quality-current-suite-validator.js:186-272 | the validator reports every fault of passes, counts, metrics and status, and nothing else |
| SuiteValidator.NoFaultIff | server/evaluation/quality-current-suite-validator.js:166-272 | there is no fault exactly in a suite where everything says what the checks say |
| SuiteValidator.MetricsCount | server/evaluation/quality-current-suite-validator.js:166-184 | what the eight metrics count: cases, checks, passed, not passed, and the two shares or null |
| SuiteValidator.SameMetric | server/evaluation/agent-eval-harness.js:166-216 | the harness writes those very metrics |
| SuiteValidator.FinishedCounts | server/evaluation/agent-eval-harness.js:97-128 | a finished case counts its failed checks and passes exactly without one |
| SuiteValidator.FailedCheckFailsACase | server/evaluation/agent-eval-harness.js:97-128 | where cases are right, all checks pass exactly if all cases do |
| SuiteValidator.ProducersAgree | server/evaluation/agent-eval-harness.js:45-216 | cases and metrics from the harness, with the runs' status, raise no error, whatever the checks |
| SuiteValidator.FindDuplicateIds | server/evaluation/quality-current-suite-validator.js:42-55 | exactly the ids that occur twice |
| SuiteValidator.IdsAreRight | server/evaluation/quality-current-suite-validator.js:1472-1525 | the id checks: non-empty, unique, and the expected set |
| SuiteValidator.RightIffRearranged | server/evaluation/quality-current-suite-validator.js:1472-1525 | they pass exactly for a rearrangement of unique, non-empty expected ids |
| SuiteValidator.UploadIsValidIffResumed | server/evaluation/quality-current-suite-validator.js:455-533 | an upload record is accepted exactly if it tells of n >= 2 chunks, the first floor(n/2) skipped whole, and a non-empty rest |
| BucketFold.FoldConcat | server/evaluation/observability-report.js:458-515 | counters of a concatenation are sums |
| BucketFold.FoldPermutation | server/evaluation/observability-report.js:458-515 | the order of the items does not matter for counters |
| BucketFold.BucketIsPart | server/evaluation/observability-report.js:451-456 | a bucket holds the counters of the items with its key, and there is one for each key |
| BucketFold.BucketsAddUp | server/evaluation/observability-report.js:517-531 | the buckets add up to the totals |
| BucketFold.BucketsOfConcat | server/evaluation/observability-report.js:517-531 | buckets of a concatenation are sums of buckets |
| BucketFold.BucketsPermutation | server/evaluation/observability-report.js:517-531 | the order of the items does not matter for buckets |
| OperationsFold.AddCounters | server/evaluation/observability-report.js:458-515 | one event adds exactly its counters; it raises exactly for a null annotation or alert |
| OperationsFold.ModelCalls.AddEvent | server/evaluation/observability-report.js:517-531 | one event goes into the totals, the bucket of its trimmed operation, its route and, if its operation as it came is llm_completion, its template; it raises exactly for a null entry or a trimmed operation named like an inherited member |
| OperationsFold.ModelCalls.AddAll | server/evaluation/observability-report.js:788-828 | the loop over the events counts exactly the model calls, or raises exactly if one of them does |
| OperationsTheorems.CountsSumToTheTotal | server/evaluation/observability-report.js:37-40 | the counts of each kind sum to the events, less those whose key is the name of an inherited member |
| OperationsTheorems.LatencyCounts | server/evaluation/observability-report.js:401-515 | breached <= observed <= total, read off the latency states; ok and error are exclusive |
| OperationsCounts.FlagsCount | server/evaluation/observability-report.js:458-515 | each flag counter is the number of events with its property: ok, error, alerts, over budget, observed, breached |
| OperationsCounts.SloMeans | server/evaluation/observability-report.js:401-420 | an explicit valid state wins; else the latency is compared with its objective, if both are numbers |
| OperationsCounts.KeysCount | server/evaluation/observability-report.js:458-515 | each count object counts the events with that key in its own field |
| OperationsCounts.ListsCount | server/evaluation/observability-report.js:458-515 | annotations and alerts are counted as often as they stand in the lists |
| OperationsCounts.AmountsAdd | server/evaluation/observability-report.js:458-480 | each amount is the sum of the events' own |
| OperationsCounts.OneMoreCall | server/evaluation/observability-report.js:385-388 | exactly the model calls that are no mirror count |
| OperationsCounts.KeysAreTrimmed | server/evaluation/observability-report.js:451-456 | bucket keys are trimmed and not empty |
| OperationsCounts.SkillCounts | server/evaluation/observability-report.js:94-140 | runs count one by one, summaries add what they report |
| OperationsTheorems.BucketsConserve | server/evaluation/observability-report.js:517-531 | per operation, route and template the buckets add up to the totals in every counter |
| OperationsTheorems.ReportsAdd | server/evaluation/observability-report.js:788-828 | reports of concatenated event lists add up |
| OperationsTheorems.ReportsIgnoreOrder | server/evaluation/observability-report.js:788-828 | reordering the events changes no counter and no bucket |
| OperationsTheorems.RouteAndTemplateKeysAreSafe | server/evaluation/observability-report.js:428-449 | route and template keys are never names of inherited members |
| OperationsTheorems.CompletionsAreABucketIff | server/evaluation/observability-report.js:451-531 | the completions are the bucket of llm_completion exactly if none has white space around its operation |
| OperationsTheorems.SkillBoard.Add | server/evaluation/observability-report.js:94-140 | a summary or a run adds exactly its numbers to its skill |
| OperationsTheorems.SkillBoard.AddEvents | server/evaluation/observability-report.js:811-819 | summaries count, runs only without one |
| OperationsTheorems.SkillsConserve | server/evaluation/observability-report.js:81-140 | a skill has the numbers of its own items, all skills together those of all items, in any order |

## Left out

- Express routes, configuration, SQL, React, MCP, telemetry exporters and the Python reranker: input, output and wiring.
- Encryption of chunks at rest: reading a chunk gives back what was stored.
- The text rules for safe file names, UUIDs and SHA-256 digests in the upload store: booleans of the request.
- The tenant's list, export and erase of upload sessions, and the removal of a merged file by a route.
- The comparison of stored and repeated metadata on a second initialization (a different file is refused before any write).
- In the sweep's model a claim linked between its first look and its listing counts as linked after the listing.
- The digest a client may send along with a chunk.
- Liveness: nothing says when a waiting process runs, only that it may.
- A process crash in the middle of a feedback append, the tenant delete of feedback records (it takes no lock by design),
  and `listFeedback`, a filter and a sort of the lines modelled here.
- The sanitizers of server/feedback.js: field-by-field copies.
- Names inherited from prototypes, and arrays, along the path of a token claim.
- The order integer-like object keys get in JavaScript: canonical forms sort all keys the same way.
- Characters are Unicode scalar values, not UTF-16 code units.
- FeedbackFile.OnlyCitationsChange: says that nothing but the citations changes; what the redaction makes of them is the caller's function.
- JwtToken.AcceptedIsSigned: parts after the third are not looked at by the code, and only the token hash covers them.
- JwtToken.Verify: Node's base64 reader on text outside the alphabet is taken to skip such characters.
- StreamChat.StreamChat: the request, its retry after a 401 and a callback that throws are not modelled.
- AnswerMetrics.TokenF1: starts at the tokens; the normalization of the texts is not modelled, nor is the resolution of source labels behind `citedSourcePages`.
- GitStatus.GitPaths: the line format of older reports is a parameter.
- Evidence.Build: relative paths, content hashes and prompt templates are read before; the suite part is always as given.
- SuiteValidator.ValidateSuite: the raw integrity of replayed cases beyond response projections, and answer and claim re-evaluation, are not modelled.
- SuiteValidator.IdsAreRight: the required case ids of a manifest and the shape of a corpus contract are further checks, not modelled.
- SuiteValidator.FindDuplicateIds: the order of the listed duplicates is not modelled; only whether there are any matters.
- OperationsTheorems.SkillsConserve: the last-budget fields are last-wins and not part of the sums; planner, recovery and retrieval counters of the report are not modelled.
- OperationsFold.Increment: what the entry of an inherited name then holds (a text, or nothing) is not modelled.
- Floating-point rounding.
