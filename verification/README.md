# Failure-safe state changes of Brain, verified

A model, in Dafny 4.11, of the parts of Brain that change state in steps which may
fail, race or be cut short, and proofs of what survives. `dafny verify dfyconfig.toml`
checks all of it.

| file | what it models |
|---|---|
| Prelude.dfy | Option, Result and dictionary lookups |
| FileStore.dfy | a file system as a mutable map: any operation may raise before or after its effect; every state it passes through is recorded |
| ApprovalItems.dfy | tightening and reconciling one policy's items |
| ApprovalLedger.dfy | reconciling all managed targets over one file plan, two of them possibly on one file |
| ApprovalProtocol.dfy | the marker protocol: tighten and mark under a lock, run unlocked, drop the marker and reconcile; crashes anywhere |
| ApprovalJournal.dfy | the write-ahead journal of a commit, and its partial recovery |
| Distribution.dfy | checked replacement of a binary together with its tree |
| Release.dfy | checked replacement of any number of files |
| Subscriptions.dfy | the proxy's standing streams, tokens and bounded backlog |
| RawLineReader.dfy | line reading across interruptions and process images |
| SessionMirror.dfy | the coalescing background writer, as interleaved turns |
| DoctorResults.dfy | rebuilding a nested value from the pages of an untrusted server |
| DoctorRoundTrip.dfy | serving a value in pages, ranges and details, and getting it back |
| Projection.dfy | one type language compiled to JSON Schema and interpreted by a decoder |
| DiscoveryPaging.dfy | cursor paging through composition and cutting to fit |
| ConfigMerge.dfy | layered configuration as an algebra |
| DocsReachability.dfy, DecisionIndex.dfy | documentation reachability and the decision index |

The program's objects and loops are classes and methods here, each proved equal to a
specification function or to a stated property; the theorems about whole runs are
lemmas about those functions. JSON encodings, hashes and clocks are uninterpreted:
a fingerprint is the content it covers, an encoded size is the sum of its items' sizes
and separators, a continuation's key is an arbitrary function of it.

Where the code does less than its description promises, the model follows the code:

- Removing approval items gives back the allowances a user had before Brain adopted
  them, so a removal can widen what is observed (`RemovalWidensIff`, `RemovalCanWiden`), even
  while a transition's marker stands (`RulesChangeIff`, `TightRemovalCanWiden`).
- Claude's MCP and CLI targets of one scope are one settings file. Removing the MCP target takes
  its review rules out of the file that the CLI target is kept in, a marker standing or not
  (`RemovalReachesTheOtherSurface`); exactly such rules go (`RulesChangeIff`).
- Adopting an item Brain already owns overwrites the receipt's note of the user's own
  value, after which removal no longer restores it (`ReconcileKeepsTrace`,
  `ReadoptionForgetsTheUser`).
- Which refusal recovery meets first depends on the order of the ledger (`LedgerOrderDecides`).
- A file fingerprint leaves out the mode and a tree fingerprint the manifest's text, so a
  proven rollback may keep a replacement that differs only there (`RollbackIsExactIff`, `RollbackMayKeepTheMode`).
- A text whose every range announces a null total is accepted at any length
  (`AcceptedTextIsCovered`, `NullTotalsHideACut`).
- `Literal` and enumeration values 0, 1, false and true are decoded as one another but not
  validated so; an enumeration of several kinds is validated by the kind of its first value
  (`LiteralAgreesIff`, `EnumAgreesIff`). Compacting a union loses every
  value beside an enumeration that the enumeration does not list, unless only null or listed
  booleans stand there (`CompactionKeepsMeaningIff`, `EnumBesideIntegersLosesThem`). JSON Schema
  takes 1.0 for an integer, the decoder does not (`IntegralFloatsDiffer`).
- A composed page cut to no launcher entry repeats its starting cursor, which at the start is
  null; only its pending flag tells (`StuckAtTheStart`).
- Three configuration layers are not associative where a middle layer changes the kind of
  value (`MergeIsAssociativeIff`, `MergeIsNotAlwaysAssociative`).
- A decision numbered 0 passes the sequence check (`ZeroIsAccepted`).

## Model

| member | source | states |
|---|---|---|
| ApprovalItems.TighteningItems | cli/_launcher/approval_management.py:242-260 | The two loops drop every new allowance and put back every observed review rule: the result is `Tightened`, item by item. |
| ApprovalItems.TighteningOnlyShrinks | cli/_launcher/approval_management.py:242-260 | Tightened allowances are allowances both of what was observed and of what is desired; every observed review rule stays a review rule; desired review rules and desired allowances already there are in. |
| ApprovalItems.TightenedHolds | cli/_launcher/approval_management.py:242-260 | Exactly what a tightened policy holds: desired review rules, what is observed of the desired allowances, and observed review rules nothing is desired for. |
| ApprovalItems.TighteningIsIdempotent | cli/_launcher/approval_management.py:242-260 | Tightening what was tightened changes nothing. |
| ApprovalItems.ReconcileItems | src/brain-core/scripts/_bootstrap/approval_ownership.py:17-71 | Refusals and result: an item clashes exactly where the user edited what Brain owns, excluded it, or has another value of his own, and is then left and reported by its reason; every other desired item is in place and owned (with the value before Brain), unless the user's own matches; what is no longer desired goes back; nothing else moves. |
| ApprovalItems.TightReconcileOnlyShrinks | cli/_launcher/approval_management.py:208-228 | Reconciling a tightened policy adds no allowance, removes no observed review rule, and leaves the user's own review rules unchanged and the user's. |
| ApprovalItems.RemovalReturnsOwnership | src/brain-core/scripts/_bootstrap/approval_ownership.py:17-71 | After a removal without conflict Brain owns nothing, and what it allows is bounded by what was observed and what the user had granted before. |
| ApprovalItems.RemovalGivesBack | src/brain-core/scripts/_bootstrap/approval_ownership.py:43-71 | A removal without conflict puts every owned item, still as Brain last wrote it, back to what it was before, and touches no other. |
| ApprovalItems.RemovalWidensIff | src/brain-core/scripts/_bootstrap/approval_ownership.py:43-71 | A removal widens exactly when it gives back an allowance of the user's own that the observed policy does not hold. |
| ApprovalItems.RemovalCanWiden | src/brain-core/scripts/_bootstrap/approval_ownership.py:50-56 | An approval the user had, adopted and held at a prompt, comes back as an approval when it is removed. |
| ApprovalItems.ReconcileKeepsTrace | src/brain-core/scripts/_bootstrap/approval_ownership.py:17-71 | Receipts go on naming the user's original value through a reconciliation exactly when no owned item is adopted a second time. |
| ApprovalItems.ReadoptionForgetsTheUser | src/brain-core/scripts/_bootstrap/approval_ownership.py:37-40 | Adopted a second time, an item held at a prompt is taken for the user's own, and removal leaves the prompt. |
| ApprovalItems.RemovalUndoesEveryRun | src/brain-core/scripts/_bootstrap/approval_ownership.py:17-71 | After any number of reconciliations that never adopt an owned item again, removal restores every original item. |
| ApprovalLedger.ReconcileRecords | cli/_launcher/approval_lifecycle.py:71-97 | Targets are staged in the ledger's order, each over what the ones before it made of its file; the first one refused refuses them all; any conflict is reported. |
| ApprovalLedger.ShapesAreApart | src/brain-core/scripts/_bootstrap/approval_clients.py:196-201 | Two targets that share a settings file never may write the same rule. |
| ApprovalLedger.ShapesOfClaude | src/brain-core/scripts/_bootstrap/approval_clients.py:196-201 | A Claude target may write exactly the allow and ask rules that name one tool of the server, or a command-first form. |
| ApprovalLedger.WhatIsRefused | cli/_launcher/approval_management.py:166-186 | A target is refused as unsupported exactly on the Codex CLI surface unless removed, and refused when its file is gone though it owns rules, or its policy cannot be read; removal with the file gone goes through. |
| ApprovalLedger.UnchangedIsUnwritten | cli/_launcher/approval_management.py:206-208 | A file is written only where its rules change, so none is made to hold nothing. |
| ApprovalLedger.OnlyOwnRulesChange | src/brain-core/scripts/_bootstrap/approval_clients.py:151-201 | Whatever the ledger, a rule changes only in the file of a target whose shape it has. |
| ApprovalLedger.TightLedgerShrinks | cli/_launcher/approval_lifecycle.py:71-97 | A tight reconciliation of the whole ledger, targets sharing files or not: authority (what files allow and what users allowed before adoption) only shrinks; a review rule that no target of its file owns stays as it is, and unowned; a file gains exactly the allowances a removed target held back and loses exactly the review rules a removed target put where the user had none; and what Brain owns fits the inventory. |
| ApprovalLedger.LedgerReconciles | cli/_launcher/approval_management.py:166-239 | Reconciling the ledger, tight or not, installs every kept target's policy in its file with its receipts, and takes every removed target's out, whatever other targets of the file do before and after it. |
| ApprovalLedger.ClearLedgerGoesThrough | cli/_launcher/approval_management.py:166-239 | It goes through whenever every target is supported and readable, its file is not gone, its rules are of its shape and none clashes. |
| ApprovalLedger.TightRemovalCanWiden | cli/_launcher/approval_lifecycle.py:71-97 | A ledger on which a tight removal gives a file an allowance, while a marker is being added. |
| ApprovalLedger.RemovalReachesTheOtherSurface | cli/_launcher/approval_management.py:208-239 | Claude's two targets of one settings file, the first removed: the second, which is kept, loses a review rule from its file. |
| ApprovalProtocol.RunKeepsInv | cli/_launcher/approval_lifecycle.py:132-185 | Over every interleaving of invocations, management, recovery, user edits of any managed file (also while a commit is pending) and crashes the protocol invariant holds. |
| ApprovalProtocol.UserEditsFreely | cli/_launcher/approval_management.py:389-393 | Users may put anything into a managed file, or delete it, at any time, a commit pending or not. |
| ApprovalProtocol.FutureIsWhatItMakes | cli/_launcher/approval_lifecycle.py:51-68 | What an invocation tightens for is exactly the registered Brains as its operation makes them: added if absent, removed, reinstalled under the new contract, stale ones pruned, found ones added, all others unchanged. |
| ApprovalProtocol.MarkersHaveTheirOrigin | cli/_launcher/approval_lifecycle.py:132-163 | Before an invocation begins to tighten it has no marker, on disk or in a half-written commit; afterwards its marker stands for what it began to tighten for. |
| ApprovalProtocol.ExposureStaysBounded | cli/_launcher/approval_lifecycle.py:132-185 | For every marker that stands, its owner alive or dead, Brain owns no allowance that the policy for that transition's future Brain set would not grant, on disk or in a half-written commit; and while an owner operation runs its marker stands. |
| ApprovalProtocol.ExposureFitsTheOperation | cli/_launcher/approval_lifecycle.py:132-185 | While an invocation's marker stands, Brain owns no allowance that the policy would not grant for the registered Brains as its operation, and nothing else, makes them from those found when it began. |
| ApprovalProtocol.StepsBesideAMarkerShrink | cli/_launcher/approval_lifecycle.py:132-185 | A step that leaves a marker standing, and neither is the user's own edit nor undoes one, changes no policy or lands a tight commit. |
| ApprovalProtocol.AuthorityNeverGrows | cli/_launcher/approval_lifecycle.py:132-185 | From the commit that adds a marker until it goes: authority (what files allow and what users allowed before adoption) never grows, no target leaves the ledger, and every review rule that no target of its file owns stays as it is, and unowned. |
| ApprovalProtocol.RulesChangeIff | cli/_launcher/approval_lifecycle.py:132-185 | Beside a marker, in every file: a rule becomes an allowance exactly when a tight commit removes a target that held it back from the user, and a review rule goes exactly when one removes a target that put it where the user had none. |
| ApprovalProtocol.RulesStay | cli/_launcher/approval_lifecycle.py:132-185 | So over the whole stretch: a rule not given back is no allowance at the end unless it was one at the start, and a review rule not taken away is one still, whoever owns it. |
| ApprovalProtocol.WideningLeavesNoMarker | cli/_launcher/approval_lifecycle.py:173-185 | A step that grows authority, gives a file an allowance or takes a review rule away is a journalled commit that leaves no marker, or one that removes a target that held the allowance back or had put the rule there. |
| ApprovalProtocol.WideningUsesActualInventory | cli/_launcher/approval_lifecycle.py:173-185 | A commit that leaves no marker and widens is management with no transition in progress, or reconciles the whole ledger to the inventory as it is. |
| ApprovalProtocol.InvocationCompletesIff | cli/_launcher/approval_lifecycle.py:132-185 | An invocation nothing interrupts goes through exactly when its tightening and its final reconciliation are admissible; it leaves the ledger reconciled to the Brains it finds at its end, tight while other markers stand, and no marker, lock or journal of its own. |
| ApprovalProtocol.MarkersGoOnlyWithTheirOwner | cli/_launcher/approval_lifecycle.py:211-244 | A marker goes only with its own invocation's final commit or with a recovery that found its owner dead. |
| ApprovalProtocol.RecoverySparesLiveOwners | cli/_launcher/approval_lifecycle.py:211-244 | Recovery never starts over the marker of an invocation that is alive, because the owner holds its operation lock for the marker's whole span. |
| ApprovalProtocol.AbandonedMarkersWait | cli/_launcher/approval_lifecycle.py:165-172 | The marker of an invocation that died, or never learnt its outcome, stays until recovery. |
| ApprovalProtocol.DropsOnlyOnceReturned | cli/_launcher/approval_lifecycle.py:164-175 | An invocation begins to drop its marker only once its owner operation has said what it did. |
| ApprovalProtocol.RecoveryCompletesIff | cli/_launcher/approval_lifecycle.py:211-244 | Once every process is dead, wherever each died, explicit recovery by a fresh process goes through exactly when every file of an interrupted commit holds its content from before or after it and, if markers stand, either no target is refused or conflicts or the first one refused is of an unsupported surface; it then ends with no journal and no marker. |
| ApprovalProtocol.PutBackRestores | cli/_launcher/approval_management.py:386-411 | Putting an interrupted commit back gives every file it changes its content before it, and moves no other. |
| ApprovalProtocol.LedgerOrderDecides | cli/_launcher/approval_lifecycle.py:226-238 | Two targets on which the order of the ledger decides whether recovery goes through. |
| ApprovalJournal.RollBack | src/brain-core/scripts/_bootstrap/file_transaction.py:211-249 | Attempted changes are put back in reverse; every file that could not be is reported; when nothing raises every file is back and nothing reported. |
| ApprovalJournal.ApplyFileChanges | src/brain-core/scripts/_bootstrap/file_transaction.py:179-261 | Every change is applied, or every attempted one is put back or reported; in every state between each file holds its before or its after content; it gets through when nothing raises, and when only one operation raises it leaves every file as it was. |
| ApprovalJournal.Commit | cli/_launcher/approval_management.py:269-295 | Refuses beside a journal or over edited files; every state it passes through is one of those from which recovery is exact; it gets through when nothing raises, and interrupted by one raise it leaves the change set wholly absent or wholly applied. |
| ApprovalJournal.Recover | cli/_launcher/approval_management.py:350-423 | Checks every selected entry before writing any, never writes over a third value, puts selected files back, control files last, and cuts the journal to the rest; when nothing raises its answer is determined; stopped by one raise it has put back every selected file or none. |
| ApprovalJournal.CrashThenRecovery | cli/_launcher/approval_management.py:269-295 | Stop a commit after any file operation and recover everything: every file holds its before content, or there was no journal and the change set is wholly absent or wholly applied. |
| ApprovalJournal.LeavingMeansBack | cli/_launcher/approval_management.py:364-416 | An entry leaves the journal only when its file is back. |
| ApprovalJournal.AttemptsProgress | cli/_launcher/approval_management.py:364-416 | Through any sequence of partial recoveries, each stopped anywhere, every entry of the first journal is pending or back, and no file outside the journal moves. |
| ApprovalJournal.ControlsComeLast | cli/_launcher/approval_management.py:372-384 | Through any such sequence a control file is put back only once some recovery selected every other file that was still pending. |
| ApprovalJournal.AttemptsOnlyPutBack | cli/_launcher/approval_management.py:386-411 | Through any sequence of recoveries, stopped anywhere, a file changes only from the after to the before value of an entry: nothing else is ever written over. |
| ApprovalJournal.PendingIsUncovered | cli/_launcher/approval_management.py:364-416 | What is still pending is a control file or outside every selection that ran through. |
| ApprovalJournal.PartialRecoveriesEndAlike | cli/_launcher/approval_management.py:364-416 | Partial recoveries whose selections cover the journal end in the state of one full recovery, even when some were interrupted. |
| Distribution.RemoveTree | cli/_distribution.py:668-673 | Removing a tree may stop half way; other paths never move. |
| Distribution.CutOver | cli/_distribution.py:187-195 | Moving a target aside and its stage into place: in every state the original, or a replacement of the same fingerprint, is whole at the target or its backup, raised or not; it fails only where an operation raises. |
| Distribution.Stage | cli/_distribution.py:161-185 | Staging moves neither target; on success both stages hold what was asked and the tree matches its manifest; it fails exactly when an operation raises or the tree does not match. |
| Distribution.VerifyPair | cli/_distribution.py:471-485 | Succeeds only for a tree that matches its manifest beside the executable rendering of its identity. |
| Distribution.TryRestore | cli/_distribution.py:576-599 | Whatever raises inside the restore of one target, the original or its fingerprint twin is whole in every state; when nothing raises the target is restored. |
| Distribution.RestoreTarget | cli/_distribution.py:563-612 | No error means the target is back and its backup gone; when nothing raises there is no error, and one raise is forgiven when the target is back after all. |
| Distribution.RollBack | cli/_distribution.py:546-665 | Verified rollback means both targets are restored and no backup remains; when nothing raises it is verified; otherwise each original, or a replacement of the same fingerprint, is whole, and a target not restored is suspected. |
| Distribution.RollbackIsExactIff | cli/_distribution.py:510-535 | Rollback gives the original back exactly unless staged and original differ only in what the fingerprint leaves out (file mode, manifest text). |
| Distribution.RollbackMayKeepTheMode | cli/_distribution.py:534-536 | A binary replaced by the same bytes under another mode stays replaced although the rollback is proven. |
| Distribution.SamePrintIff | cli/_distribution.py:510-540 | Two files have one fingerprint exactly when their bytes agree, two trees when both match their manifests and their entries agree, or neither does and they are the same. |
| Distribution.Install | cli/_distribution.py:155-252 | In every state of a failing install each original survives whole at its target or backup, unless its replacement has the same fingerprint; `rollback_verified` means both are back without backups; a target not restored and everything left over is listed; success is the rendering beside the verified tree. When nothing raises a sound tree is installed with nothing left over; when one operation raises, the rollback is verified, nothing is left over, and replacements told apart by fingerprint leave the disk as it was. |
| Release.StageAll | src/scripts/release.py:420-431 | Originals and stages are recorded, no target moves, and a stage carries the mode of the file it will replace; it fails only where an operation raises. |
| Release.ReplaceAll | src/scripts/release.py:432-434 | Every target before the one whose rename raised holds its stage, that one its stage or what it held; a failing rename counts as attempted. |
| Release.RestoreOne | src/scripts/release.py:441-462 | Writes only over the staged value; a third value is left alone and raises; when nothing raises a target at its original or its stage ends at its original. |
| Release.RollBack | src/scripts/release.py:436-476 | In reverse order, other programs acting between the turns: at its own turn each attempted target ends at its original or is listed, and a third value found there is kept and listed; when nothing raises and every turn finds an original or a stage, nothing is listed. |
| Release.RemoveStagedFiles | src/scripts/release.py:493-501 | Every stage that could not be removed is returned, none when nothing raises, and nothing else moves. |
| Release.WriteTransaction | src/scripts/release.py:414-490 | Success: every target holds its staged bytes and mode; it comes whenever nothing raises. Failure: at its turn each attempted target went to its original or is listed, a third value found there was kept and is listed, and it is as that turn left it unless others changed it since; leftovers are listed; nothing listed means nothing changed. One raise, and nobody else writing or meddling with a target, lists nothing. |
| Subscriptions.NormaliseIsIdempotent | src/brain-core/brain_mcp/_proxy_session.py:58-75 | Filtering a filter again gives the same filter, with no URI twice. |
| Subscriptions.NormaliseKeepsWhatIsAsked | src/brain-core/brain_mcp/_proxy_session.py:58-75 | A filter is accepted exactly when its flags are booleans and its URIs strings; it keeps the flags that are true and each URI once, by its first mention. |
| Subscriptions.OpensIff | src/brain-core/brain_mcp/_proxy_session.py:88-101 | A stream opens exactly when its identifier and filter are usable, it is not open and there is room; it comes last under a token of its own; otherwise the first reason refuses it. |
| Subscriptions.SizeIsLength | src/brain-core/brain_mcp/_proxy_session.py:95-97 | The size checked is the length of the JSON text of the streams. |
| Subscriptions.ApplyKeepsGood | src/brain-core/brain_mcp/_proxy_session.py:78-179 | Every operation keeps: streams and tokens have the same keys, tokens distinct and below the counter, all limits respected. |
| Subscriptions.RunsStayGood | src/brain-core/brain_mcp/_proxy_session.py:78-179 | The same over every run of any operations from an empty table, by induction. |
| Subscriptions.NeverCurrentAgain | src/brain-core/brain_mcp/_proxy_session.py:125-127 | A key that is not current never is again, even if its request id is reopened. |
| Subscriptions.CancelRetiresQueuedEvents | src/brain-core/brain_mcp/_proxy_session.py:107-123 | An event queued before a cancel, end or clear is never current after it. |
| Subscriptions.TokensAreNeverReused | src/brain-core/brain_mcp/_proxy_session.py:88-110 | A token names one opening of one stream for ever. |
| Subscriptions.EmitEachServes | src/brain-core/brain_mcp/_proxy_session.py:133-153 | After its turn a matching stream has the event pending or is closed and was told; nothing pending is lost and other streams keep their tokens. |
| Subscriptions.EmitEachTells | src/brain-core/brain_mcp/_proxy_session.py:133-153 | The frames tell exactly what was done: an event for each key newly queued, each for a stream that asked, a cancellation for each stream closed, and none closed but for a full backlog. |
| Subscriptions.EmitReachesEveryStream | src/brain-core/brain_mcp/_proxy_session.py:133-153 | After an event every stream that asked for it has it pending and current, or, the backlog being full, is closed with a cancellation published. |
| Subscriptions.InvalidateInforms | src/brain-core/brain_mcp/_proxy_session.py:159-168 | After an invalidation everything a stream asked for is queued for it, or, the backlog being full, the stream was closed and told to refetch. |
| Subscriptions.HiddenIsWhatWasAsked | src/brain-core/brain_mcp/_proxy_session.py:159-168 | What an invalidation emits is exactly what some stream asked for. |
| Subscriptions.RestoreUndoesSnapshot | src/brain-core/brain_mcp/_proxy_session.py:155-179 | Restoring a snapshot of any reachable table succeeds with the same ordered streams and filters. |
| Subscriptions.Registry.OpenStream | src/brain-core/brain_mcp/_proxy_session.py:88-101 | Opens, acknowledges, or refuses with the reason and no change. |
| Subscriptions.Registry.CancelStream | src/brain-core/brain_mcp/_proxy_session.py:107-110 | Removes exactly that stream and its token; says whether it was open. |
| Subscriptions.Registry.EndAll | src/brain-core/brain_mcp/_proxy_session.py:118-123 | Closes every stream and publishes one cancellation each, in order; pending events stay. |
| Subscriptions.Registry.Emit | src/brain-core/brain_mcp/_proxy_session.py:133-153 | The loop over the streams open at the start is the fold of single turns, frames in order. |
| Subscriptions.Registry.Invalidate | src/brain-core/brain_mcp/_proxy_session.py:159-168 | Emits, in order, each kind and each distinct URI that any stream open at the start asked for. |
| Subscriptions.Registry.Restore | src/brain-core/brain_mcp/_proxy_session.py:170-179 | Reopens each stream in a fresh registry; the first refusal refuses the whole. |
| RawLineReader.LinesRejoin | src/brain-core/brain_mcp/_proxy_handoff.py:32-42 | The newline split concatenates to the stream, and each line has a newline only at its end, only the last may lack one. |
| RawLineReader.OnlyOneSplit | src/brain-core/brain_mcp/_proxy_handoff.py:32-42 | No other list of lines concatenates to the same stream. |
| RawLineReader.Reader.ReadLine | src/brain-core/brain_mcp/_proxy_handoff.py:32-42 | Returns the first line of what was left and leaves the rest, however the reads cut the stream. |
| RawLineReader.Reader.ReadLineInterruptible | src/brain-core/brain_mcp/_proxy_handoff.py:44-67 | The same, or nothing returned and nothing lost, and that only when woken; a line already whole is given without reading. |
| RawLineReader.Reader.Handoff | src/brain-core/brain_mcp/_proxy_handoff.py:84-119 | The new image has the same remainder and the same rest; it is refused exactly over one chunk or when a send fails. |
| RawLineReader.OpenChannel | src/brain-core/brain_mcp/_proxy_handoff.py:84-119 | However each send cuts the data, a channel holds exactly the data and its length; it opens unless a send fails or the data is over one chunk. |
| RawLineReader.ConsumeChannel | src/brain-core/brain_mcp/_proxy_handoff.py:160-188 | Data comes out exactly when the channel holds as many bytes as announced, and then it is all of them. |
| RawLineReader.TheSplitOfTheStream | src/brain-core/brain_mcp/_proxy_handoff.py:20-67 | Over any sequence of reads, interruptions and handoffs, lines handed out followed by lines to come are the newline split of the stream. |
| RawLineReader.EmptyMeansTheEnd | src/brain-core/brain_mcp/_proxy_handoff.py:32-67 | An empty answer means every line of the stream has been handed out. |
| SessionMirror.StepKeepsInv | src/brain-core/brain_mcp/_session_mirror.py:37-108 | Every turn of a publisher, worker or closer keeps the invariant, persisting failing before or after its effect. |
| SessionMirror.RunKeepsInv | src/brain-core/brain_mcp/_session_mirror.py:37-108 | The invariant over every interleaving. |
| SessionMirror.AtMostOneWorker | src/brain-core/brain_mcp/_session_mirror.py:73-81 | At most one worker is alive at any moment. |
| SessionMirror.FailedImportLosesNothing | src/brain-core/brain_mcp/_session_mirror.py:73-93 | A worker whose import fails takes nothing with it, and the next model published has a worker again. |
| SessionMirror.WritesRise | src/brain-core/brain_mcp/_session_mirror.py:83-108 | Generations reach the disk in strictly increasing order. |
| SessionMirror.RunsMoveForward | src/brain-core/brain_mcp/_session_mirror.py:37-71 | History only grows, and nothing is accepted after close. |
| SessionMirror.WorkersLeaveNothingBehind | src/brain-core/brain_mcp/_session_mirror.py:83-93 | A worker leaves its loop only when closed with nothing pending, and by then the last accepted model was taken. |
| SessionMirror.CloseMeansOnDisk | src/brain-core/brain_mcp/_session_mirror.py:49-71 | When close returns true the last accepted model, if any, is on disk and stays there. |
| SessionMirror.TheDrainEnds | src/brain-core/brain_mcp/_session_mirror.py:49-71 | Once closed, the worker has at most eight turns left and each uses some up. |
| SessionMirror.TheWorkerIsNeverStuck | src/brain-core/brain_mcp/_session_mirror.py:83-108 | Once closed, a live worker always has a turn to take. |
| SessionMirror.OfferedIsAccepted | src/brain-core/brain_mcp/_session_mirror.py:37-47 | The models accepted are exactly those published before the first close, in order. |
| SessionMirror.QuietRunsPersist | src/brain-core/brain_mcp/_session_mirror.py:49-108 | Where no import fails and no write raises, a closed and drained mirror has the last model published before the close on disk, and every close reports so. |
| SessionMirror.Mirror.PublishModel | src/brain-core/brain_mcp/_session_mirror.py:37-47 | Accepts the model as the only pending one, starting a worker if none lives; nothing once closed. |
| SessionMirror.Mirror.ReportClose | src/brain-core/brain_mcp/_session_mirror.py:63-71 | True exactly when no thread was started, or the one waited for is dead and everything accepted is persisted. |
| SessionMirror.Mirror.TakeRequest | src/brain-core/brain_mcp/_session_mirror.py:86-93 | Takes the pending request and clears it, or leaves when there is none. |
| DoctorResults.DescriptorsAreCoherent | cli/_launcher/doctor_results.py:17-41 | An accepted descriptor is on a page that exists and says rightly whether another follows. |
| DoctorResults.PagesAreCounted | cli/_launcher/doctor_results.py:44-64 | A run of pages is at most as long as announced, and complete exactly when it is as long. |
| DoctorResults.Recovery.Advance | cli/_launcher/doctor_results.py:44-64 | Sends the continuation once; the next page is the answer, with the same totals; an honest run is followed to its end. |
| DoctorResults.Recovery.ReadText | cli/_launcher/doctor_results.py:82-120 | Sends at most one request for each page announced; an accepted text is what the pages the server answered with carry, and an honest run's text is accepted. |
| DoctorResults.Recovery.ReadFields | cli/_launcher/doctor_results.py:122-144 | An accepted list or mapping is what the pages the server answered with carry; an honest run's is accepted; each continuation is followed once. |
| DoctorResults.Recovery.ResolveReference | cli/_launcher/doctor_results.py:68-76 | A detail is asked for once, cached, and never read inside itself; this ends whenever the details ever named are finitely many. |
| DoctorResults.Recovery.Ask | cli/_launcher/doctor_results.py:72-74 | One request for the detail, and the answer to it. |
| DoctorResults.Recovery.Learn | cli/_launcher/doctor_results.py:74-75 | A detail is kept with the value its own pages, as answered, carry. |
| DoctorResults.Recovery.Resolve | cli/_launcher/doctor_results.py:66-80 | The value with every reference in it replaced by its detail's value. |
| DoctorResults.Recovery.Materialise | cli/_launcher/doctor_results.py:82-151 | The value the run of frames carries, each after the first the server's answer; an honest server's value is never refused. |
| DoctorResults.CompleteCheckResult | cli/_launcher/doctor_results.py:15-162 | Against any server this ends; the log is of what was asked and answered in the one session; no detail is asked for twice; a result is what the envelope and answered pages carry, each detail's value what its answered pages carry given only the details read before it, and exactly one continuation was sent for each further page; an honest server's value comes back exactly. |
| DoctorResults.NeededComesFirst | cli/_launcher/doctor_results.py:66-80 | A detail whose pages carry nothing without another was read after that one, so no value rests on itself, directly or around a cycle. |
| DoctorResults.SoundIsDelivered | cli/_launcher/doctor_results.py:66-80 | Each detail kept is what its own pages carry. |
| DoctorResults.RowsAreTheCells | cli/_launcher/doctor_results.py:122-144 | Cells are accepted exactly when the k-th list cell has index k, or no two mapping keys are equal; the rows are the cells, none lost, added or moved. |
| DoctorResults.AcceptedListsAreWhole | cli/_launcher/doctor_results.py:122-144 | An accepted list has exactly the indexes 0 to total_items - 1. |
| DoctorResults.AcceptedMappingsAreWhole | cli/_launcher/doctor_results.py:122-144 | An accepted mapping has total_items distinct keys. |
| DoctorResults.RangesCoverTheText | cli/_launcher/doctor_results.py:87-120 | Ranges are accepted exactly when each starts where the text before it ended and the totals agree. |
| DoctorResults.AcceptedTextIsCovered | cli/_launcher/doctor_results.py:87-120 | Text is accepted exactly from abutting ranges that agree on a total that is the length, or is null in all; then each range stands whole between its start and end. |
| DoctorResults.FragmentsSpellTheText | cli/_launcher/doctor_results.py:96-106 | Fragments are accepted exactly when each continues its line where the ones before left it, and spell the text end to end. |
| DoctorResults.AcceptedFragmentsAreWhole | cli/_launcher/doctor_results.py:87-120 | A text of fragments is accepted exactly when they do and the last line is complete. |
| DoctorResults.PlainIsWhole | cli/_launcher/doctor_results.py:145-151 | A result sent plainly is accepted exactly when it is the whole run, its descriptor counts it rightly and every detail in it is known; it is then what it reads with those in place. |
| DoctorRoundTrip.CutTextComesBackIff | cli/_launcher/doctor_results.py:107-120 | The ranges of a text cut anywhere give it back exactly when they announce its length or null; another total refuses it. |
| DoctorResults.PlainIsVerbatim | cli/_launcher/doctor_results.py:66-80 | A value without the reserved reference shape arrives as it was sent. |
| DoctorRoundTrip.PagedFieldsComeBack | cli/_launcher/doctor_results.py:122-144 | The cells of a list or mapping cut into pages anywhere, its values sent plain or as details, give it back. |
| DoctorRoundTrip.NullTotalsHideACut | cli/_launcher/doctor_results.py:107-120 | A text cut short whose range announces null is taken for whole; announcing its length it is refused. |
| DoctorRoundTrip.PagingIsWhole | cli/_launcher/doctor_results.py:17-64 | Payloads framed with their descriptors are a whole run of pages. |
| DoctorRoundTrip.CodeStandsFor | cli/_launcher/doctor_results.py:66-80 | A tree with any of its parts replaced by details, shared or not, stands for the tree. |
| DoctorRoundTrip.DocDelivers | cli/_launcher/doctor_results.py:82-151 | A value served in one frame, in pages of cells or in ranges of text, cut anywhere, is what its frames deliver. |
| DoctorRoundTrip.BookIsHonest | cli/_launcher/doctor_results.py:44-80 | A server of such documents, no detail inside itself, is honest. |
| DoctorRoundTrip.CheckComesBack | cli/_launcher/doctor_results.py:15-162 | Round trip: any check result served this way comes back exactly. |
| Projection.LiteralAgreesIff | cli/_launcher/projection.py:96-102 | The schema of a Literal accepts what the decoder does exactly when 0, 1, false and true are listed with their twins. |
| Projection.EnumAgreesIff | cli/_launcher/projection.py:138-143 | The schema of an enumeration accepts what the decoder does exactly when, besides, the kind of its first value covers all of them. |
| Projection.CompactUnion | cli/_launcher/projection.py:244-263 | The merging loop gives the compacted schema, or refuses on a clash of keywords or kinds. |
| Projection.CompactsIff | cli/_launcher/projection.py:244-263 | A union is compacted exactly when its branches have one kind each, no two the same kind or a keyword in common. |
| Projection.CompactionMeans | cli/_launcher/projection.py:244-263 | A compacted union accepts what some branch accepts and every enumeration among the branches lists. |
| Projection.CompactionKeepsMeaningIff | cli/_launcher/projection.py:244-263 | Compaction keeps the meaning of a union for every value exactly when beside each enumeration there is only null, booleans with both listed, or a branch nothing satisfies. |
| Projection.EnumBesideIntegersLosesThem | cli/_launcher/projection.py:244-263 | Any string Literal beside int loses every integer the decoder takes. |
| Projection.OptionalMeans | cli/_launcher/projection.py:103-106 | The schema of an optional, compacted or not, accepts null and what its type accepts. |
| Projection.OptionalDecodes | cli/_launcher/projection.py:183-196 | The decoder gives None for null and decodes anything else by the one branch. |
| Projection.SchemaAndDecoderAgree | cli/_launcher/projection.py:91-173 | For every type the decoder knows whose unions are optionals, a JSON value satisfies the schema exactly when the decoder accepts it with integral floats written as integers. |
| Projection.ValidIsDecoded | cli/_launcher/projection.py:176-241 | On values without integral floats schema and decoder agree outright. |
| Projection.IntegralFloatsDiffer | cli/_launcher/projection.py:216-219 | Every integral float is valid as an integer and is not decoded as one. |
| Projection.AmbiguousUnionsDiffer | cli/_launcher/projection.py:183-196 | Every integer is valid for int or float and is not decoded, both branches matching. |
| Projection.WireComesBackIff | cli/_launcher/projection.py:301-316 | A well-typed value comes back from its wire form exactly when it holds no field its class does not take from callers and no member written as null where null is allowed. |
| Projection.DerivedFieldsDoNotComeBack | cli/_launcher/projection.py:65-82 | The wire form of a class with a field it does not take from callers is always refused. |
| DiscoveryPaging.ViewIsTheMatches | cli/_launcher/discovery.py:131-147 | The filtered view holds exactly the matching entries, each once, in catalogue order. |
| DiscoveryPaging.AfterTheNth | cli/_launcher/discovery.py:148-157 | A cursor naming the n-th entry of the view leads to the place after it. |
| DiscoveryPaging.PageAt | cli/_launcher/discovery.py:158-164 | The page is the next entries of the view, none only at its end, with a cursor at the last of them exactly when more follow. |
| DiscoveryPaging.SortSorts | cli/_local_cli/discovery.py:95-100 | The composed list is sorted and has the same entries. |
| DiscoveryPaging.ComposeKeepsThePage | cli/_local_cli/discovery.py:79-112 | Composition keeps the launcher page whole and in order among the sorted entries. |
| DiscoveryPaging.ComposeRefusesIff | cli/_local_cli/discovery.py:95-101 | Composition is refused exactly when an identifier stands twice, in one page or across the two. |
| DiscoveryPaging.KeepFirstKeeps | cli/_local_cli/main.py:863-880 | Cutting keeps a prefix of the launcher entries and all application entries. |
| DiscoveryPaging.BoundDiscovery | cli/_local_cli/main.py:863-901 | Keeps the longest prefix of launcher entries that fits, with a cursor at the last of them; nothing but an unavailable page when none does. |
| DiscoveryPaging.ComposedPage | cli/_local_cli/main.py:665-711 | One call gives the longest prefix of the catalogue page that fits and a cursor that resumes at the first entry dropped, null only at the end of the view or before its start. |
| DiscoveryPaging.Follow | cli/_launcher/discovery.py:93-170 | Following the cursors from the start gives the entries of the view in order, without gap or repeat, exactly as far as `Walk` gets and with its ending. |
| DiscoveryPaging.Walk | cli/_launcher/discovery.py:93-170 | Following ends; complete means every entry was reached, stuck means some are left. |
| DiscoveryPaging.WalkCompletes | cli/_local_cli/main.py:863-880 | It is complete whenever the page size is in range, no identifiers collide and every page can be cut so as to keep a launcher entry. |
| DiscoveryPaging.StuckAtTheStart | cli/_local_cli/main.py:869-878 | A first page that cannot be cut so: nothing is visited, and its cursor is null though every entry is still to come. |
| ConfigMerge.MergeDefaults | src/brain-core/scripts/config.py:124-162 | The in-place loop computes the merge. |
| ConfigMerge.Union | src/brain-core/scripts/config.py:147-155 | Joined lists keep the first of each entry, in order. |
| ConfigMerge.EmptyIsIdentity | src/brain-core/scripts/config.py:124-162 | The empty layer is the identity on both sides. |
| ConfigMerge.MergeIsAssociativeIff | src/brain-core/scripts/config.py:124-162 | Merging is associative exactly on layers where no middle value of another kind stands between two alike whose first adds something. |
| ConfigMerge.AddsNothingIff | src/brain-core/scripts/config.py:124-162 | Laying one layer over another gives it back exactly when the other adds nothing: no key, no set flag, no list entry that is not already first. |
| ConfigMerge.MergeIsNotAlwaysAssociative | src/brain-core/scripts/config.py:147-160 | A list, a scalar and a list on which the order of merging matters. |
| ConfigMerge.MergeIsAssociative | src/brain-core/scripts/config.py:124-162 | Layers that agree on the kind of value at each path merge associatively. |
| ConfigMerge.MergeIsIdempotentIff | src/brain-core/scripts/config.py:124-162 | A layer merged with itself is itself exactly when its lists repeat nothing. |
| ConfigMerge.MergingAgainChangesNothing | src/brain-core/scripts/config.py:124-162 | Merging the same layer again changes nothing when its lists repeat nothing. |
| ConfigMerge.MergedAtPath | src/brain-core/scripts/config.py:124-162 | A merge holds at a path the merge of what its layers hold there. |
| ConfigMerge.ThreeLayersAtPath | src/brain-core/scripts/config.py:186-198 | Three layers give the or of booleans, the union of lists, the last scalar; a last layer of another kind wins; at `access.initial` and `access.overrides` the last layer to say anything wins. |
| ConfigMerge.DeepMerge | src/brain-core/scripts/config.py:211-219 | The in-place loop computes the override. |
| ConfigMerge.OverrideAtPath | src/brain-core/scripts/config.py:211-219 | Every leaf of the overlay is in the result. |
| ConfigMerge.OverrideKeepsTheRest | src/brain-core/scripts/config.py:211-219 | Wherever the overlay says nothing, on the way to a path or there, the base's value stays. |
| ConfigMerge.MergeConfig | src/brain-core/scripts/config.py:165-208 | Refuses exactly a zone that is not a mapping; the vault zone ignores the local file, the defaults zone folds all three. |
| DocsReachability.ValidateDocsReachability | src/scripts/check_repository_contracts.py:440-464 | Ends on every link graph; reports exactly the documents no chain of router links from the root reaches, or a missing root. |
| DocsReachability.ReachedIsLeast | src/scripts/check_repository_contracts.py:440-464 | What is reached is the least set that holds the root and is closed under links of routers. |
| DocsReachability.TargetsAreWhatLinksLeadTo | src/scripts/check_repository_contracts.py:471-492 | A link leads to the document of its path, or else to the index in that directory, and to nothing else. |
| DecisionIndex.ValidateDecisionIndex | src/scripts/check_repository_contracts.py:365-437 | Reports exactly what is wrong, and nothing exactly when files and index match one to one in sequence. |
| DecisionIndex.NothingWrongIff | src/scripts/check_repository_contracts.py:365-437 | The separate complaints together are the one-to-one match. |
| DecisionIndex.ZeroIsAccepted | src/scripts/check_repository_contracts.py:385-390 | A lone decision numbered 0 passes: the sequence is only checked from 1. |
| DecisionIndex.Group | src/scripts/check_repository_contracts.py:376-382 | Each number holds its paths in order. |
| DecisionIndex.Compare | src/scripts/check_repository_contracts.py:421-437 | Each number with exactly one file or one row is compared with the other side. |

## Left out

- ApprovalProtocol.RunKeepsInv: the transport kind's extra root, the migration of legacy rules files, and the check for the Windows surface are not modelled; users edit only files of managed targets.
- ApprovalLedger.ReconcileRecords: which removed targets a caller passes is left open, so the model allows more than the code; retargeted executables and unreadable client files are not modelled.
- ApprovalLedger.OnlyOwnRulesChange: the server is always named brain, and any command-first form counts as the executable's own, where the code compares the executable and its words.
- ApprovalProtocol.ExposureStaysBounded: a marker carries the Brain set it was made for instead of a process number.
- ApprovalJournal.Commit: the journal's size limit, other programs writing during one call, and dry runs are not modelled.
- ApprovalJournal.ApplyFileChanges: the directories it creates on the way are not modelled; every parent exists.
- ApprovalJournal.RollBack: the directories created on the way are neither removed nor reported.
- Distribution.CutOver: promises the original or a replacement of the same fingerprint, since the code cannot tell them apart.
- Distribution.TryRestore: a binary or tree path held by the other kind (a directory, a file) is only promised not to be lost.
- Distribution.Install: symbolic links, the source's own receipt and the choice of interpreter are not modelled; other programs do not write during an install.
- Release.WriteTransaction: other programs act before each rename and before each turn of the rollback, not inside a turn; parent directories exist.
- Subscriptions.Registry.OpenStream: a publisher that raises is not modelled; the lock makes each method one step.
- RawLineReader.Reader.Handoff: descriptors, socket checks and exec are not modelled, only the bytes carried; a handoff in one of the two older formats carries them in place.
- SessionMirror.RunKeepsInv: a thread that cannot be started at all, and the sweep of temporary files at construction, are not modelled; persisting raises only ordinary exceptions.
- DoctorResults.CompleteCheckResult: floats are not modelled, and all refusals are one refusal.
- Projection.SchemaAndDecoderAgree: mappings, dates and a bare None are compiled but never decoded, so they are outside the agreement; checks made by a class after construction, and descriptions, defaults and formats in schemas, are not modelled.
- Projection.WireComesBackIff: a path is its text, so the normalising of paths is not modelled.
- DiscoveryPaging.Follow: identifiers are numbers in their order, and the filter is any predicate that stays the same between calls; the trimming of an unavailable page's metadata is not modelled.
- ConfigMerge.MergeConfig: reading YAML and the warning about ignored local keys are not modelled; list entries are text.
- DocsReachability.ValidateDocsReachability: finding links in Markdown text is a function from a document to its links; the order and wording of reports is not modelled.
- DecisionIndex.ValidateDecisionIndex: parsing file names and table rows is a function; problems are a set.
- Git, subprocess and network plumbing, command-line parsing and rendering, version-text editing, catalogue tables and owner registration are not part of this model: each claim there is settled by one branch or by a tool outside the repository.
