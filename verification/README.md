# Viki: machine-checked models of its state machines and text algorithms

Viki is a specification wiki with an assistant. This project models the parts of its Go backend in
which correctness depends on many steps taken together, and proves what those parts are for:

- the **stream filter** that hides marker-delimited blocks from text arriving in arbitrary pieces, the
  stripper that does the same for whole texts, the signed **prompt frame** and the bounded **handoff**
  between the assistant's two modes;
- the **assistant runtime**: turns, the three active indexes and the recent one, session rotation and
  reconnects, clarifications and endings; and the **event stream** with its replay log and dropped
  subscribers;
- the **receipts** of a conversation: from the gateway's history to the messages they are shown with, and
  the stored draft receipts attached to them;
- the **repository pipeline**: when a snapshot is an acceptable catalogue, when an execution stream is
  complete evidence for it, importing it into tables nothing is ever deleted from, and the read paths
  over those tables;
- the **governed revision lifecycle**: pages, revisions, objections, approvals, the assistant's atomic
  change sets, and the review status that predicts approval;
- three **protocols**: the JSON-RPC client's pending table, the development claim queue and the
  localization lease queue.

## How it is built

Each concern has a specification on values (functions, predicates and a step function), lemmas about
it, and, where the source changes state, a class or method with the source's fields and loops whose
`ensures` equates the new state with the specification. A theorem over all runs is an induction over
steps that keep an invariant. Texts are Go strings: one `char` stands for one byte.

| concern | files |
|---|---|
| text | `GoStrings`, `Options`, `Utf8`, `JsonText`, `Markers`, `MarkdownLinks`, `StreamFilter`, `ChunkInvariance`, `StripMarkers`, `PromptFrame`, `Handoff` |
| turns and events | `TurnState`, `TurnOps`, `TurnInvariants`, `TurnRuns`, `TurnOutcomes`, `TurnGrants`, `AssistantRuntime`, `EventStream` |
| receipts | `HistoryReceipts`, `VisibleTexts`, `DraftAttachment` |
| snapshots | `Collections`, `Snapshots`, `Catalogues`, `AcceptedSources`, `BusinessIdentity`, `SnapshotReader`, `ExecutionStream`, `ExecutionEvidence`, `EvidenceFacts`, `ExecutionValidator` |
| import | `RepositoryStore`, `RepositoryImports`, `RepositoryViews`, `PageDetails`, `RepositorySync` |
| lifecycle | `BddSteps`, `PageStore`, `Lifecycle`, `ChangeSets`, `ChangeSetProofs`, `ChangeSetShapes`, `LifecycleRuns`, `ObjectionRuns`, `CommittedRows`, `WikiRepository` |
| protocols | `RpcProtocol`, `RpcAnswers`, `RpcClient`, `DevelopmentProtocol`, `DevelopmentRuns`, `DevelopmentOutcomes`, `DevelopmentClaims`, `LocalizationQueue`, `LocalizationLeases`, `LocalizationWorker` |

**Granularity.** Database transactions are atomic steps that commit or change nothing. In the assistant
runtime "never two unfinalised turns in a conversation" is proved with every mutex critical section as
its own step (`TurnState.NeverTwoUnfinalisedTurns`); all other turn properties are proved for
whole-operation steps, with gateway and repository outcomes as free inputs. In the RPC client, the
development queue and the localization queue every critical section, channel operation and database
statement is its own step and all interleavings are covered.

**Assumptions.** Nothing is assumed globally. What a theorem needs of foreign code is a parameter with a
stated premise: a decoder that inverts the encoder and a MAC that is never empty (`PromptFrame`; such a
decoder exists, `PromptFrame.DecodeInvertsMarshal`), a gateway that gives no conversation another one's
stored session (`TurnGrants.Separate`; while the other conversation's column holds it, the unique indexes
of backend/internal/postgres/migrations/002_hermes_assistant.sql:25-28 refuse it), a collision-free
digest and a parser that yields text without NULs from text without NULs (`BusinessIdentity`). Leases
and new row ids are distinct.

## What the proofs found

- `unwrapPrompt` slices out of range exactly on texts that begin with the start marker, a newline and
  the end marker on its own line (`PromptFrame.OutOfRangeOnEmptyFrame`); no wrapped prompt is one.
- The stream filter and `stripInternalMarkers` can disagree (`StripMarkers.StrippersCanDiffer`). On a
  stream that ends outside a block they agree exactly when no start marker in the visible text is
  followed by a visible end marker or by the place of a removed block
  (`StripMarkers.StrippersAgreeIff`); as long as no start marker is visible, they agree exactly on the
  streams that end outside a block (`StripMarkers.StrippersAgree`). Both hold for the trimmed texts too.
- The shape check for change sets lets through sets in which a scenario gives both a parent id and a
  parent key; such a set commits and leaves the new feature without a scenario
  (`ChangeSetProofs.TwoParentsLeaveFeatureBare`). A committed set is closed exactly when every created
  feature is named by key alone (`ChangeSetProofs.ClosedIffEveryFeatureNamed`).
- The shape check accepts client keys on revisions, but the transaction does not know them: a set in
  which an operation needs such a key passes the check and never commits
  (`ChangeSetProofs.KeyResolutionFailsIff`).
- If the answer to a committed block is lost, the claim is retried and the target can be applied to a
  revision that is already blocked (`DevelopmentRuns.LostAnswerAppliesBlocked`). Over every run a
  revision ends up blocked and applied exactly when it was applied after such a loss
  (`DevelopmentRuns.BlockedIsAppliedIffAnswerLost`). The guard a caller can check is the row's status:
  a completion applies a blocked revision exactly when the row is not running as it begins
  (`DevelopmentRuns.CompletionAppliesBlockedIff`).
- A late session event for a finished turn takes the grant away from the next turn of the same
  conversation, if a reconnect lets that one resume the stored session under a new runtime id
  (`TurnGrants.LateEventHidesActiveTurn`). Over every interleaving of critical sections an active turn is
  found by its stored session exactly when a section entered it and no later one displaced it
  (`TurnGrants.FoundOverSections`). As long as no session of one conversation is given to
  another, such a late rotation is the only operation that displaces (`TurnGrants.OnlyLateRotationDisplaces`, `TurnGrants.GrantOverRuns`). The guard is the
  entry itself: rotating a finished turn displaces an active one exactly when the stored index has an
  entry under the finished turn's session (`TurnGrants.RotationDisplacesIffEntry`).
- A turn id that is empty or contains the assistant marker cannot be read back from the message added
  for it; attaching receipts twice adds messages exactly for such turns
  (`DraftAttachment.AttachingAgainAddsNothingIff`). The code's own turn ids, a uuid or
  "<mode>-legacy-<n>", are never empty and never contain the marker (`DraftAttachment.NoSIsClean`,
  `DraftAttachment.LegacyIsClean`), so for them the second call adds nothing.

## Model

| member | source | states |
|---|---|---|
| `StreamFilter.LongestMarkerPrefixSuffix` | backend/internal/app/assistant_runtime.go:964-975 | the longest proper head of the marker that the text ends with: no longer one fits |
| `StreamFilter.InternalStreamFilter.Feed` | backend/internal/app/assistant_runtime.go:924-952 | output, buffer and inside flag after a delta are the drained meaning of the extended buffer; the loop terminates |
| `StreamFilter.InternalStreamFilter.Flush` | backend/internal/app/assistant_runtime.go:954-962 | hands out what is held outside a block, nothing inside one, and empties the buffer |
| `ChunkInvariance.ChunksDoNotMatter` | backend/internal/app/assistant_runtime.go:919-975 | the concatenated outputs of all feeds and the flush are one whole-text filter of the concatenation, so two cuttings of a text show the same |
| `ChunkInvariance.DrainBounds` | backend/internal/app/assistant_runtime.go:924-952 | what stays buffered: less than a start marker outside a block, at most 6144 bytes without an end marker inside |
| `ChunkInvariance.DrainKeepsMeaning` | backend/internal/app/assistant_runtime.go:924-952 | after any feed, output and buffer together mean, for every continuation, what the unread text meant, although bytes are thrown away |
| `ChunkInvariance.FilterRemovesTheBlocks` | backend/internal/app/assistant_runtime.go:919-962 | of a text cut at its delimited blocks the filter shows exactly the parts outside |
| `ChunkInvariance.EveryTextHasBlocks` | backend/internal/app/assistant_runtime.go:919-962 | every text can be cut at its delimited blocks |
| `ChunkInvariance.BlocksAreUnique` | backend/internal/app/assistant_runtime.go:919-962 | two such cuttings of one text are the same |
| `StripMarkers.StripInternalMarkers` | backend/internal/app/assistant_runtime.go:894-905 | the loop terminates with the stripped text, trimmed |
| `StripMarkers.StrippedTextHasNoBlock` | backend/internal/app/assistant_runtime.go:894-905 | no start marker with a later end marker is left, even after trimming |
| `StripMarkers.StrippersAgreeIff` | backend/internal/app/assistant_runtime.go:894-952 | on a stream that ends outside a block, stripping the whole text equals filtering it, trimmed or not, iff no visible start marker is followed by a visible end marker or by the place of a removed block |
| `StripMarkers.StrippersAgree` | backend/internal/app/assistant_runtime.go:894-952 | if no start marker is visible, the two agree, trimmed or not, iff the stream ends outside a block |
| `StripMarkers.StrippersCanDiffer` | backend/internal/app/assistant_runtime.go:894-952 | even trimmed they differ on a text that ends inside a block and on one that ends outside |
| `Utf8.TruncateUTF8` | backend/internal/app/assistant_runtime.go:977-985 | the cut moves back to a rune start, for every byte string and limit |
| `Utf8.TruncationKeepsWholeRunes` | backend/internal/app/assistant_runtime.go:977-985 | on valid UTF-8 the result is as many whole runes as fit |
| `JsonText.MarshalIsOneLine` | backend/internal/app/assistant_runtime.go:640-648 | encoded metadata holds neither a newline nor the bracket the markers begin with |
| `JsonText.MarshalIsInjective` | backend/internal/app/assistant_runtime.go:640-660 | different metadata have different encodings |
| `PromptFrame.UnwrapOfWrap` | backend/internal/app/assistant_runtime.go:650-684 | unwrapping a wrapped prompt returns the signed metadata and exactly the content, whatever the content |
| `PromptFrame.WrapOfUnwrap` | backend/internal/app/assistant_runtime.go:650-684 | an accepted frame with a header in encoded form is exactly what wrapping its parts prints |
| `PromptFrame.OutOfRangeOnEmptyFrame` | backend/internal/app/assistant_runtime.go:662-670 | the parser leaves its slice bounds exactly on texts that begin with an empty frame |
| `PromptFrame.DecodeInvertsMarshal` | backend/internal/app/assistant_runtime.go:640-684 | the premise of the round trip can be met: encoded metadata determines the metadata |
| `Handoff.FormatHandoff` | backend/internal/app/assistant_runtime.go:726-760 | the loops yield the newest lines that fit, oldest first, trimmed |
| `Handoff.KeptIsNewest` | backend/internal/app/assistant_runtime.go:726-760 | the newest whole lines that fit are kept unchanged, of the next older one as many whole runes as fit, nothing older |
| `Handoff.HandoffIsText` | backend/internal/app/assistant_runtime.go:726-760 | a handoff of valid text is valid text of at most 4096 bytes |
| `TurnState.NeverTwoUnfinalisedTurns` | backend/internal/app/assistant_runtime.go:154-303 | however critical sections interleave, no conversation has two unfinalised turns |
| `TurnGrants.FoundIff` | backend/internal/app/assistant_runtime.go:487-529 | a turn that stays active is found by its stored session after a critical section iff the section enters it, or it was found before and no other turn with that session is entered, finished or rotated |
| `TurnGrants.FoundOverSections` | backend/internal/app/assistant_runtime.go:154-580 | over every interleaving of critical sections an active turn is found by its stored session iff one of them entered it and no later one displaced it |
| `TurnGrants.OnlyLateRotationDisplaces` | backend/internal/app/assistant_runtime.go:154-580 | if conversations have different stored sessions, an operation takes a turn that stays active out of the stored index iff it is a late rotation of a finished turn with the same session |
| `TurnGrants.GrantOverRuns` | backend/internal/app/assistant_runtime.go:154-580 | over every such run an active turn is found by its stored session iff no late rotation followed the operation that last entered it |
| `TurnGrants.LateRotationIsOfEarlierTurn` | backend/internal/app/assistant_runtime.go:319-529 | such a rotation is of an earlier, finished turn of the same conversation |
| `TurnGrants.RotationDisplacesIffEntry` | backend/internal/app/assistant_runtime.go:514-529 | rotating a finished turn displaces an active one iff the stored index has an entry under the finished turn's session |
| `TurnGrants.LateEventHidesActiveTurn` | backend/internal/app/assistant_runtime.go:514-550 | a run of one conversation, with a reconnect between its two turns, after which the active one is not found by its stored session |
| `TurnGrants.LateRunIsSeparate` | backend/internal/app/assistant_runtime.go:514-550 | that run gives no session to two conversations |
| `TurnRuns.StepKeepsInvariant` | backend/internal/app/assistant_runtime.go:154-580 | every operation keeps indexes, states and published histories consistent |
| `TurnRuns.TurnSafety` | backend/internal/app/assistant_runtime.go:154-580 | over all runs a turn is unfinalised iff it is its conversation's active one, session entries point at active turns under their current ids, the state is running or awaiting iff a turn is active, a clarification is pending iff awaiting |
| `TurnRuns.OneEndingOneText` | backend/internal/app/assistant_runtime.go:319-512 | an accepted turn is finalised iff exactly one ending was published; its text is the filter of what was fed, or the stripped final text; each receipt is published at most once |
| `TurnRuns.NothingAfterTheEnding` | backend/internal/app/assistant_runtime.go:487-512 | a finalised turn publishes nothing more, whatever happens later |
| `TurnRuns.FinishedStaysFinished` | backend/internal/app/assistant_runtime.go:487-530 | no operation changes a finished turn but for the stored id a late rotation gives it |
| `TurnRuns.GrantIsActive` | backend/internal/app/assistant_runtime.go:298-303 | a granted stored session is the active turn of its conversation under that very id |
| `TurnOutcomes.CompletionEndsAsReported` | backend/internal/app/assistant_runtime.go:355-388 | over every run a completed message to an active turn ends it: with the stopped event and a stopped conversation iff the status is "interrupted", with the error event and a failed one iff it is "error", with the completed event and an idle one otherwise |
| `TurnOutcomes.StopEnds` | backend/internal/app/assistant_runtime.go:262-275 | stopping ends the conversation's active turn as stopped iff the gateway interrupts it, and otherwise changes nothing |
| `TurnOutcomes.FailureEnds` | backend/internal/app/assistant_runtime.go:411-425 | a gateway error and a forbidden request end the turn with the error event and a failed conversation |
| `TurnOutcomes.ToolOutcome` | backend/internal/app/assistant_runtime.go:428-485 | a tool the mode does not allow fails the turn; an allowed one publishes its activity and each draft and citation not published before, once, in order |
| `TurnOutcomes.ClarifyOutcome` | backend/internal/app/assistant_runtime.go:391-408 | a clarification with an id and a question makes the conversation await it, any other fails the turn |
| `TurnOutcomes.RespondOutcome` | backend/internal/app/assistant_runtime.go:277-296 | an answer makes the turn run on iff it is for the pending clarification and was delivered, and otherwise changes nothing |
| `TurnOutcomes.SubmitOutcomeIs` | backend/internal/app/assistant_runtime.go:154-220 | which submissions are refused and why, and what a started or failed turn leaves |
| `TurnOutcomes.TextOutcome` | backend/internal/app/assistant_runtime.go:319-354 | a text is fed to the filter of its turn, unless it cannot be read or was streamed already; the conversation runs on |
| `TurnOutcomes.OtherEventsAreIgnored` | backend/internal/app/assistant_runtime.go:319-337 | an event of a session without a turn changes nothing, but for the session information of a recent one |
| `TurnOutcomes.ReconnectOutcome` | backend/internal/app/assistant_runtime.go:531-580 | for every turn of the profile after a reconnect: rebound and running, ended as completed, or failed, as its own resumption says |
| `AssistantRuntime.Runtime.Submit` | backend/internal/app/assistant_runtime.go:154-220 | refuses, starts or fails a turn exactly as the step says, keeping the invariant |
| `AssistantRuntime.Runtime.Stop` | backend/internal/app/assistant_runtime.go:262-275 | stops the active turn or reports there is none |
| `AssistantRuntime.Runtime.RespondClarification` | backend/internal/app/assistant_runtime.go:277-296 | answers the pending clarification, and only that one |
| `AssistantRuntime.Runtime.HandleGatewayEvent` | backend/internal/app/assistant_runtime.go:319-426 | the whole effect of a gateway event on turns, indexes and published events |
| `AssistantRuntime.Runtime.FinishTurn` | backend/internal/app/assistant_runtime.go:487-512 | once: the turn is finalised, no active index leads to it any more, the recent one does if it has a session |
| `AssistantRuntime.Runtime.RotateStoredSession` | backend/internal/app/assistant_runtime.go:514-529 | the old id leaves the stored index, the new one enters it iff the turn is still active, no other entry comes or goes |
| `AssistantRuntime.Runtime.ReconcileProfile` | backend/internal/app/assistant_runtime.go:531-580 | after a reconnect each active turn of the profile is rebound, completed or failed |
| `AssistantRuntime.Runtime.ActiveGrant` | backend/internal/app/assistant_runtime.go:298-303 | the lookup behind a tool grant |
| `EventStream.AssistantEventStream.Publish` | backend/internal/app/assistant_runtime.go:597-614 | the log grows by one numbered event; a subscriber that is full is dropped and closed once, every other one gets it |
| `EventStream.AssistantEventStream.Missed` | backend/internal/app/assistant_runtime.go:616-628 | the replay after an id, from the last 256 events |
| `EventStream.AssistantEventStream.Subscribe` | backend/internal/app/assistant_runtime.go:616-638 | replay and live channel meet without gap or overlap |
| `EventStream.AssistantEventStream.Unsubscribe` | backend/internal/app/assistant_runtime.go:628-638 | a channel is closed exactly when it leaves the set |
| `EventStream.ReplayOfNumberedLog` | backend/internal/app/assistant_runtime.go:597-638 | the replay is exactly the events after the id, as far as the log still has them |
| `EventStream.ChannelCarriesTheLivePart` | backend/internal/app/assistant_http.go:216-257 | replay followed by what the channel carries is what the connection is offered |
| `EventStream.ResumeIsGapFree` | backend/internal/app/assistant_http.go:216-257 | a resumed connection misses nothing iff at most 256 events were published meanwhile |
| `EventStream.EveryEventOnce` | backend/internal/app/assistant_http.go:216-257 | over any number of drops a client that returns in time reads every event once, in order |
| `HistoryReceipts.ReadMessages` | backend/internal/app/assistant_runtime.go:767-863 | the loop over the history and its flushes yield the visible messages; what those are is said by the `VisibleTexts` rows |
| `VisibleTexts.VisibleHistoryIs` | backend/internal/app/assistant_runtime.go:767-863 | the visible history is the concatenation of what each element contributes, given element by element from the history before it |
| `VisibleTexts.UserTextIsShown` | backend/internal/app/assistant_runtime.go:820-852 | a framed user text that is not blank once cleaned is shown once, in its place, as that text, under its turn, mode and time |
| `VisibleTexts.UnframedTextIsShown` | backend/internal/app/assistant_runtime.go:820-852 | the same for a text without a frame, under its legacy turn |
| `VisibleTexts.AssistantTextIsShown` | backend/internal/app/assistant_runtime.go:833-859 | an assistant text that is not blank once cleaned is shown once, in its place, as that text, numbered within its turn |
| `VisibleTexts.EveryMessageIsQuotedOrCarries` | backend/internal/app/assistant_runtime.go:767-863 | every message shown quotes a text of the history or carries receipts under one of the fixed texts; none holds a start marker with a later end marker |
| `VisibleTexts.CarriesTheLast` | backend/internal/app/assistant_runtime.go:793-881 | a message carries exactly the last complete receipt of each revision brought since somebody last spoke, in the order of revisions |
| `HistoryReceipts.ListTable` | backend/internal/app/assistant_runtime.go:865-881 | the receipts of a table, each once, in the order of their revisions |
| `HistoryReceipts.ReceiptsLandOnTheNextSpeaker` | backend/internal/app/assistant_runtime.go:767-863 | receipts gathered in a turn all go to one message of the assistant in that turn, emitted when somebody next speaks; a user's message never carries any |
| `HistoryReceipts.LastReceiptsAreShown` | backend/internal/app/assistant_runtime.go:775-791 | receipts pending at the end get exactly one closing message |
| `HistoryReceipts.ReceiptIsShownNext` | backend/internal/app/assistant_runtime.go:793-859 | every complete citation or draft an allowed tool brought is shown, under its revision, by that message of the turn it was brought in |
| `HistoryReceipts.ReceiptIsShownLast` | backend/internal/app/assistant_runtime.go:793-862 | the same for receipts nobody spoke after |
| `HistoryReceipts.WindowInventsNothing` | backend/internal/app/assistant_runtime.go:793-815 | no citation or draft is shown that was not brought in its turn since somebody last spoke |
| `HistoryReceipts.TimesRiseWithinATurn` | backend/internal/app/assistant_runtime.go:784-859 | within a turn the times of the messages strictly increase |
| `HistoryReceipts.MergeHistories` | backend/internal/app/assistant_runtime.go:883-892 | the messages of both profiles, none lost, in order of time and id |
| `DraftAttachment.AttachDraftReceipts` | backend/internal/app/assistant_http.go:364-425 | in every order of the receipt table: no message or draft is lost, a turn the assistant spoke in shows its old drafts and its receipts, one message with its receipts is added for each silent turn and shows in the turn its id is read as, and the result is in order of time; message by message, only the last one of a turn gains drafts, each missing receipt once, and an added message has the user's mode and the time right after his |
| `DraftAttachment.EachTurnShowsItsReceipts` | backend/internal/app/assistant_http.go:364-425 | if the ids of all silent turns can be read back, every turn with a message shows the union of its old drafts and its receipts |
| `DraftAttachment.AttachingAgainAddsNothingIff` | backend/internal/app/assistant_http.go:364-425 | a second call adds a message for each silent turn whose id cannot be read back: none iff all can, and then no draft either |
| `DraftAttachment.CleanIff` | backend/internal/app/assistant_http.go:427-433 | a turn's id can be read back out of its receipt message iff it is not empty and does not contain the marker |
| `DraftAttachment.NoSIsClean` | backend/internal/app/assistant_http.go:427-433 | ids without the letter s, such as uuids, can be read back |
| `DraftAttachment.LegacyIsClean` | backend/internal/app/assistant_runtime.go:820-832 | so can the ids given to turns whose prompt has no frame |
| `SnapshotReader.Entries` | backend/internal/specsync/snapshot.go:168-322 | the loops and tables accept exactly the snapshots of `AcceptedSources.AcceptedIff` and yield the sorted catalogue, which says what its sources say |
| `SnapshotReader.ReadTags` | backend/internal/specsync/snapshot.go:326-346 | the id and references of a tag list, or a refusal |
| `SnapshotReader.ReadScenario` | backend/internal/specsync/snapshot.go:236-267 | accepts exactly the supported scenarios and reads them unchanged |
| `SnapshotReader.HashCatalogue` | backend/internal/specsync/snapshot.go:121-129 | the digest of the listing sorted by path |
| `Catalogues.CatalogueIsWellFormed` | backend/internal/specsync/snapshot.go:168-322 | entries are strictly increasing by id, every scenario's parent is a listed feature, every concept id a listed concept, and an id's prefix fixes the kind |
| `Catalogues.EveryScenarioIsExecutedOnce` | backend/internal/specsync/snapshot.go:296-319 | scenario entries, wire scenarios and passing cases with the same step texts stand in bijection (pigeonhole) |
| `Catalogues.CatalogueSaysItsSources` | backend/internal/specsync/snapshot.go:168-322 | every document and scenario has exactly one entry, which says what the parsed source says: title, parent, steps, references, path, content and hash, and as body the content of a concept and the description of a feature or scenario; there are no other entries |
| `AcceptedSources.AcceptedIff` | backend/internal/specsync/snapshot.go:168-322 | a snapshot is acceptable iff every document is a well-formed source with its own id, path, tags and references, the content hash is that of the lines in path order, the scenarios are exactly those of the contents, and each has exactly one case, which passed, in a verification of the same content |
| `AcceptedSources.TagsIff` | backend/internal/specsync/snapshot.go:326-346 | tags are accepted iff exactly one names an id, no id tag follows it, and all others are the references of a feature |
| `AcceptedSources.CleanPathIff` | backend/internal/specsync/snapshot.go:193-197 | a path is accepted iff nothing between its slashes is empty, "." or ".." |
| `AcceptedSources.EligibleIff` | backend/internal/specsync/snapshot.go:348-354 | a snapshot is eligible iff it is a clean build of a real commit, pushed to the main branch and verified there by its workflow |
| `Catalogues.CatalogueIsOrderFree` | backend/internal/specsync/snapshot.go:121-129 | permuting documents, scenarios or cases changes neither acceptance nor hash nor catalogue |
| `BusinessIdentity.IdentityIsExact` | backend/internal/specsync/snapshot.go:269-275 | two hashed texts are equal iff id, feature, name, description, references and step wording are |
| `BusinessIdentity.ScenarioHashIsExact` | backend/internal/specsync/snapshot.go:269-275 | over any two accepted snapshots scenario entries share a business hash iff they say the same |
| `BusinessIdentity.SameHashSameTitle` | backend/internal/specsync/snapshot.go:199-275 | a business hash fixes title, parent, references and wording of an entry |
| `BusinessIdentity.CatalogueHashIsExact` | backend/internal/specsync/snapshot.go:121-129 | the catalogue hash pins down every path and its content |
| `ExecutionStream.ReadingIsOrderFree` | backend/internal/specsync/messages.go:30-101 | the order of the messages changes neither acceptance of the scan nor what it collects |
| `ExecutionValidator.ScanMessages` | backend/internal/specsync/messages.go:18-101 | the scan of the lines succeeds iff none is too long, no message is fatal and no id repeats, and collects exactly the messages' rows |
| `ExecutionValidator.CheckRun` | backend/internal/specsync/messages.go:126-209 | accepts exactly the runs that fit their case, pickle and scenario, and builds the run's result |
| `ExecutionValidator.ValidateMessages` | backend/internal/specsync/messages.go:18-218 | for every order in which the run table is walked, accepts the lines iff the messages in them are the evidence of `EvidenceFacts.AcceptedIffEvidence` for the snapshot |
| `ExecutionEvidence.RunsBiject` | backend/internal/specsync/messages.go:105-151 | runs, cases, pickles, completions and scenarios stand in bijection and scenario ids are distinct (pigeonhole from equal counts) |
| `ExecutionEvidence.EveryRunIsEvidence` | backend/internal/specsync/messages.go:153-209 | a run's results cover exactly its case's steps, all passed, with the scenario's texts in order and a matching verification case |
| `ExecutionEvidence.EvidenceIsComplete` | backend/internal/specsync/messages.go:18-218 | acceptance implies all of this at once, with verification cases and scenarios in bijection |
| `EvidenceFacts.AcceptedIffEvidence` | backend/internal/specsync/messages.go:18-218 | on the list of messages: a stream is accepted iff it starts and ends once, its counts agree, its feature sources are the documents' contents, its pickles are the scenarios with path, name and texts, and for each started case there is its finish, every step passed and timed, exactly one fixture attachment, from the Rust backend, and its verification case with the summed durations |
| `EvidenceFacts.AttestedIff` | backend/internal/specsync/messages.go:199-208 | a run is attested iff exactly one fixture attachment of it occurs among the messages and its backend is "rust" |
| `ExecutionEvidence.ValidationIsOrderFree` | backend/internal/specsync/messages.go:18-218 | acceptance does not depend on message order |
| `RepositorySync.RepositoryWorkspace.ImportRepositorySnapshot` | backend/internal/postgres/repository_sync.go:72-165 | commits the whole snapshot and clears the poll error, or changes nothing and names the reason |
| `RepositorySync.RepositoryWorkspace.InsertSnapshot` | backend/internal/postgres/repository_sync.go:129-157 | the row-by-row loop is the import of all entries or its first failure |
| `RepositoryImports.ImportSucceedsIff` | backend/internal/postgres/repository_sync.go:72-165 | an import commits iff the snapshot is eligible, acceptable, from the workspace's repository, and newer than the last or identical to it |
| `RepositoryImports.ImportOutcome` | backend/internal/postgres/repository_sync.go:72-165 | what every import answers: which reason refuses it, in which order the reasons are looked for, and the row and pointer a committed one leaves |
| `RepositoryImports.RowsAreMainBuilds` | backend/internal/postgres/repository_sync.go:72-165 | every imported snapshot row is an accepted build of the main branch |
| `RepositoryImports.ImportKeepsInvariant` | backend/internal/postgres/repository_sync.go:72-165 | rows are only added, runs strictly increase, and re-importing the last snapshot changes no row |
| `RepositoryImports.NewSnapshotIsImported` | backend/internal/postgres/repository_sync.go:129-164 | a newer acceptable snapshot always commits: no unique constraint or kind change can fail it |
| `RepositoryImports.RevisionsAreNumbered` | backend/internal/postgres/repository_sync.go:142-150 | a page's revisions are numbered 1 to n without gap or repetition and have distinct hashes |
| `RepositoryImports.OldContentAddsNoRevision` | backend/internal/postgres/repository_sync.go:142-150 | returning to content of any earlier snapshot makes no new revision |
| `RepositoryImports.NothingIsLost` | backend/internal/postgres/repository_sync.go:133-157 | over any run of imports no page, revision or snapshot row is lost or changed |
| `RepositoryViews.ImportReplacesCatalogue` | backend/internal/postgres/repository_sync.go:72-272 | whatever was listed before, after a committed import exactly the imported snapshot's entries are listed |
| `RepositoryViews.ListingIsLastCatalogue` | backend/internal/postgres/repository_sync.go:219-272 | the listed pages are exactly the last new snapshot's entries, one each, parents resolved to listed features |
| `RepositoryViews.EveryRevisionHasAVersion` | backend/internal/postgres/repository_sync.go:168-218 | the newest-snapshot join drops no revision |
| `RepositoryViews.CurrentRevisionIsFound` | backend/internal/postgres/repository_sync.go:273-303 | every page's current revision is among its versions |
| `RepositoryViews.DetailAgreesWithListing` | backend/internal/postgres/repository_sync.go:219-318 | detail and listing agree on slug, title, kind, revision, parent and provenance |
| `PageDetails.DetailSays` | backend/internal/postgres/repository_sync.go:168-318 | the detail of a page: archived iff the last snapshot does not list it, parent the page its entry names, history every revision of it once with numbers n down to 1 and what the newest snapshot says of each, children exactly the pages listed as belonging to it, in listing order |
| `RepositorySync.RepositoryWorkspace.RepositoryPages` | backend/internal/postgres/repository_sync.go:219-272 | the two loops and their maps yield the listing in any collation and for any kind |
| `RepositorySync.RepositoryWorkspace.RepositoryPageDetail` | backend/internal/postgres/repository_sync.go:273-318 | the loops over versions and listing yield the page's detail |
| `BddSteps.ValidateBDDSteps` | backend/internal/postgres/pages_write.go:50-91 | accepts exactly non-blank steps of the grammar Given(Given, And, But)* When(...)* Then(...)* |
| `BddSteps.PhasedIffThirdPhase` | backend/internal/postgres/pages_write.go:50-91 | the phase counter reaches the third phase iff the keywords split into three such phases |
| `BddSteps.RoleIsPhase` | backend/internal/postgres/pages_write.go:339-351 | on accepted lists the backward scan yields the phase |
| `BddSteps.StoredStepsHaveTheirPhase` | backend/internal/postgres/pages_write.go:274-351 | every stored step's definition has the role of its phase and no earlier definition changes |
| `WikiRepository.Repository.CreatePage` | backend/internal/postgres/pages_write.go:93-178 | inserts page, draft and initial scenario, or nothing |
| `WikiRepository.Repository.SaveRevision` | backend/internal/postgres/pages_write.go:180-246 | supersedes the draft it is based on by the next number, or changes nothing |
| `WikiRepository.Repository.ApproveRevision` | backend/internal/postgres/review.go:17-104 | approves a current draft without open objections below an approved parent, superseding the old one and queueing development |
| `WikiRepository.Repository.AddObjection` | backend/internal/postgres/review.go:147-185 | adds an open objection to a revision of the organization |
| `WikiRepository.Repository.ResolveObjection` | backend/internal/postgres/review.go:187-212 | resolves one objection |
| `WikiRepository.Repository.ApplyAIChangeSet` | backend/internal/postgres/ai_changes.go:15-167 | all operations of a change set, or none |
| `WikiRepository.Repository.ReviewStates` | backend/internal/postgres/pages_query.go:272-359 | approved and draft revision with their review state |
| `WikiRepository.CanApprove` | backend/internal/governance/policy.go:26-33 | true iff no objection is open |
| `Lifecycle.CreatePageKeepsInvariant` | backend/internal/postgres/pages_write.go:93-178 | creating a page keeps the lifecycle invariant |
| `Lifecycle.SaveKeepsInvariant` | backend/internal/postgres/pages_write.go:180-246 | saving keeps it |
| `Lifecycle.ApproveKeepsInvariant` | backend/internal/postgres/review.go:17-104 | approving keeps it |
| `LifecycleRuns.RunKeepsInvariant` | backend/internal/postgres/pages_write.go:93-260 | in every reachable state revisions are numbered 1 to n, each based on the one before, the current one is the newest, statuses and pointers agree, every revision fits its page, approved scenarios have approved parents |
| `LifecycleRuns.LifecycleOverAllRuns` | backend/internal/postgres/review.go:17-104 | from the empty wiki: at most one draft and one approved revision per page, approved scenarios below approved features, development rows exactly for scenario revisions once approved |
| `LifecycleRuns.RunGrows` | backend/internal/postgres/review.go:17-104 | over any run nothing is deleted and superseded is final |
| `LifecycleRuns.OneSavePerBase` | backend/internal/postgres/pages_write.go:180-246 | of two saves on one base, anywhere in a run, at most one succeeds |
| `CommittedRows.SaveCommitsIff` | backend/internal/postgres/pages_write.go:180-246 | a save commits iff it is based on the page's current revision and its text fits the page |
| `CommittedRows.SaveAddsDraft` | backend/internal/postgres/pages_write.go:180-246 | the rows a save leaves: a draft with the text given, numbered after its base, the draft before it superseded, nothing else |
| `CommittedRows.CreateCommitsIff` | backend/internal/postgres/pages_write.go:93-178 | creating commits iff the page, and the scenario given with a feature, fit |
| `CommittedRows.CreateAddsPages` | backend/internal/postgres/pages_write.go:93-178 | the rows it leaves: the page and its first draft with the text given, and the same for the scenario |
| `CommittedRows.SlugIff` | backend/internal/postgres/pages_write.go:18 | a slug is valid iff it is words of lowercase letters and digits joined by single hyphens |
| `LifecycleRuns.ReviewPredictsApproval` | backend/internal/postgres/pages_query.go:272-359 | in every kept state a draft is reported ready iff approving it succeeds |
| `ObjectionRuns.ApprovalCommitsIff` | backend/internal/postgres/review.go:17-104 | in every kept state an approval commits iff the revision is its page's draft, a scenario's feature is approved and every objection row of the page is resolved |
| `ObjectionRuns.ApprovalPublishes` | backend/internal/postgres/review.go:17-104 | what a committed approval leaves: draft approved, the one before superseded, a scenario queued, nothing else changed |
| `ObjectionRuns.NothingApprovedOverObjections` | backend/internal/postgres/review.go:54-70 | over every run an approval commits only if each objection of the page is resolved in the state before |
| `ObjectionRuns.ObjectionBlocksApproval` | backend/internal/postgres/review.go:147-212 | after a committed objection every approval of its page fails, whatever runs in between, until that objection is resolved |
| `ObjectionRuns.ResolutionCloses` | backend/internal/postgres/review.go:187-212 | an objection is resolved iff it was open on a page of the organization; only it changes |
| `ObjectionRuns.ReviewReadsObjections` | backend/internal/postgres/pages_query.go:272-359 | a draft is reported ready iff a scenario's feature is approved and every objection row of the page is resolved |
| `ChangeSetProofs.ValidateAssistantChangeSetShape` | backend/internal/postgres/ai_changes.go:169-233 | the loop accepts exactly the valid shapes |
| `ChangeSetShapes.ShapeIff` | backend/internal/postgres/ai_changes.go:169-233 | the shape check accepts a set iff each operation is good where it stands, its keys name earlier operations of the right kind, and a created scenario names the key of every created feature |
| `ChangeSetProofs.KeyResolutionFailsIff` | backend/internal/postgres/ai_changes.go:54-233 | a set of valid shape meets an unknown key iff its operations succeed up to one that needs a key only a revision carries; a set with such an operation never commits |
| `ChangeSetProofs.ChangesKeepInvariant` | backend/internal/postgres/ai_changes.go:54-167 | a committed set keeps the lifecycle invariant |
| `CommittedRows.OperationCommitsIff` | backend/internal/postgres/ai_changes.go:54-167 | an operation commits iff every key it uses was created before and the page fits, or the revision repeats its page's metadata, is based on its current revision and fits |
| `CommittedRows.OperationCommits` | backend/internal/postgres/ai_changes.go:54-167 | what each operation of a committed set writes: created pages under their keys, revisions only of unchanged metadata, references resolved to the pages created |
| `CommittedRows.ChangesSay` | backend/internal/postgres/ai_changes.go:15-167 | a set commits as its operations in order, a clarification commits nothing, a managed wiki refuses |
| `ChangeSetProofs.ClosedIffEveryFeatureNamed` | backend/internal/postgres/ai_changes.go:54-233 | every created feature gets a scenario created after it iff the set names it by key alone |
| `ChangeSetProofs.ValidShapeNamesEveryFeature` | backend/internal/postgres/ai_changes.go:169-233 | for sets with one parent per operation the shape check implies that |
| `ChangeSetProofs.TwoParentsLeaveFeatureBare` | backend/internal/postgres/ai_changes.go:54-233 | a set with two parents passes the check, commits and leaves its feature bare |
| `RpcProtocol.EveryRunIsSafe` | backend/internal/hermes/client.go:110-322 | under every interleaving ids are unique, channels get at most one response, replies reach only their call, no open call is forgotten, and none stays pending on a lost connection |
| `RpcProtocol.LossAnswersItsCalls` | backend/internal/hermes/client.go:228-236 | handling a loss leaves every open call of that connection with exactly one response |
| `RpcProtocol.WaitersAreWoken` | backend/internal/hermes/client.go:134-151 | whoever waits while disconnected holds a channel that is closed by the time the client is connected |
| `RpcAnswers.NewCallWaits` | backend/internal/hermes/client.go:166-172 | a new call waits under a fresh id on the connection of the moment, and no other call changes |
| `RpcAnswers.EveryAnswerHasItsCause` | backend/internal/hermes/client.go:110-322 | over every run a call is answered once, by a reply that was read under its own id with that body, or by a loss or close |
| `RpcAnswers.ReplyArrives` | backend/internal/hermes/client.go:290-297 | a reply read under the id of a waiting call reaches that call with its body, whatever happens in between |
| `RpcAnswers.StrayReplyIsDropped` | backend/internal/hermes/client.go:290-297 | a reply under an id nobody waits under changes nothing |
| `RpcAnswers.AbandonedGetsNothing` | backend/internal/hermes/client.go:189-207 | an abandoned call leaves the others waiting and is sent nothing more, unless its reply was in flight |
| `RpcClient.Client.Register` | backend/internal/hermes/client.go:166-172 | a fresh id enters the table with the captured connection |
| `RpcClient.Client.TakePending` | backend/internal/hermes/client.go:291-297 | a response takes exactly its call out of the table |
| `RpcClient.Client.SendTaken` | backend/internal/hermes/client.go:295-297 | the send finds its channel empty |
| `RpcClient.Client.Receive` | backend/internal/hermes/client.go:189-207 | a call receives the one response meant for it |
| `RpcClient.Client.FailPendingLocked` | backend/internal/hermes/client.go:317-322 | every pending call is told once and the table emptied, each send finding its channel empty |
| `RpcClient.Client.HandleLost` | backend/internal/hermes/client.go:228-236 | the loss is handled only for the current connection |
| `RpcClient.Client.Close` | backend/internal/hermes/client.go:110-124 | closing drops the connection and fails what is pending |
| `DevelopmentClaims.DevelopmentClaimStore.Reserve` | backend/internal/app/development_claim.go:32-43 | a session is reserved iff it has no claim |
| `DevelopmentClaims.DevelopmentClaimStore.Bind` | backend/internal/app/development_claim.go:45-55 | binds a revision iff task and lease match and none is bound |
| `DevelopmentClaims.DevelopmentClaimStore.Begin` | backend/internal/app/development_claim.go:57-67 | begins iff bound, not finishing and held by task and lease |
| `DevelopmentClaims.DevelopmentClaimStore.Retry` | backend/internal/app/development_claim.go:69-78 | only the holder reopens a claim |
| `DevelopmentClaims.DevelopmentClaimStore.Release` | backend/internal/app/development_claim.go:80-87 | only the holder releases a claim |
| `DevelopmentRuns.EachRevisionIsAppliedOnce` | backend/internal/app/assistant_tools.go:128-216 | over all interleavings no revision is bound twice, the target is applied at most once per revision and only after binding, and what is developed was applied |
| `DevelopmentRuns.StatusMovesForward` | backend/internal/postgres/development.go:19-87 | a row goes from queued to running to developed or blocked and never back |
| `DevelopmentRuns.ClaimedRowIsBound` | backend/internal/app/assistant_tools.go:140-153 | a request that reserved its session always binds the row it claimed |
| `DevelopmentOutcomes.StepOutcome` | backend/internal/app/assistant_tools.go:128-216 | in every reachable state, what each step of a request leaves of its claim, its row and itself, and that it touches no other |
| `DevelopmentOutcomes.FinishingBeginsIff` | backend/internal/app/development_claim.go:57-67 | finishing begins iff the claim is bound, not being finished, and held under that task and lease; otherwise nothing changes |
| `DevelopmentOutcomes.RetriedFinishesAgain` | backend/internal/app/assistant_tools.go:201-216 | after a retry the holder may finish the same revision again |
| `DevelopmentOutcomes.ReleasedClaimsAgain` | backend/internal/app/assistant_tools.go:128-216 | after a release the session may claim again |
| `DevelopmentRuns.BlockedIsAppliedIffAnswerLost` | backend/internal/app/assistant_tools.go:167-214 | over every run a revision ends up both blocked and applied iff the answer to the block of its row was lost and it was applied after that |
| `DevelopmentRuns.ApplyFindsBlockedIffAnswerLost` | backend/internal/app/assistant_tools.go:167-214 | a request about to apply its revision finds its row blocked iff such an answer was lost before |
| `DevelopmentRuns.CompletionAppliesBlockedIff` | backend/internal/app/assistant_tools.go:167-200 | a completion that begins will apply a blocked revision iff the row is not running when it begins, whatever runs in between |
| `DevelopmentRuns.LostAnswerAppliesBlocked` | backend/internal/app/assistant_tools.go:167-214 | a run in which one answer is lost and a blocked revision is applied |
| `MarkdownLinks.MarkdownDestination` | backend/internal/localize/localize.go:76-110 | the scan with its index and depth yields the destination |
| `MarkdownLinks.BalancedDestinationsAreReadWhole` | backend/internal/localize/localize.go:75-110 | a link's closing parenthesis ends its destination iff the destination is balanced, escapes and nested parentheses included |
| `LocalizationQueue.Validate` | backend/internal/localize/localize.go:126-138 | accepts exactly translations of the same shape that keep blanks and protected values |
| `LocalizationQueue.EveryRunIsSafe` | backend/internal/postgres/localization.go:46-108 | over all interleavings a job is claimed at most three times, a completed job has exactly one row and any other none, and every row is a valid translation under its revision's hash |
| `LocalizationQueue.OldTicketsPublishNothing` | backend/internal/postgres/localization.go:81-103 | a superseded or expired lease publishes nothing |
| `LocalizationQueue.ClaimsUseUpAttempts` | backend/internal/localize/localize.go:39-68 | each claim uses up one of the attempts left over all jobs, nothing gives any back |
| `LocalizationLeases.TranslationIff` | backend/internal/localize/localize.go:126-138 | what a valid translation is, over the list of all its texts |
| `LocalizationLeases.ClaimOutcome` | backend/internal/postgres/localization.go:46-79 | a job is claimed iff it is unfinished, due and claimed less than three times; the ticket says what its revision says and holds for ten minutes |
| `LocalizationLeases.FinishOutcome` | backend/internal/postgres/localization.go:81-103 | finishing publishes iff the text is a translation and the lease current and unexpired; the row is the first version under the revision's hash |
| `LocalizationLeases.HolderPublishes` | backend/internal/postgres/localization.go:46-103 | whoever claimed a job and finishes within ten minutes publishes his translation, whatever other workers and imports do meanwhile |
| `LocalizationLeases.HolderIsAlone` | backend/internal/postgres/localization.go:46-79 | within those ten minutes nobody else gets the job |
| `LocalizationLeases.GivenUpRests` | backend/internal/postgres/localization.go:104-108 | a job given up rests for five minutes: nobody gets it until then, anybody from then on if it has attempts left |
| `LocalizationWorker.LocalizationStore.ClaimLocalization` | backend/internal/postgres/localization.go:46-79 | enlists new revisions and leases the candidate that comes first (pages' current revisions, then by time and id) among those not locked by others, or there is none; what is left when either statement fails |
| `LocalizationWorker.LocalizationStore.CompleteLocalization` | backend/internal/postgres/localization.go:81-103 | succeeds iff the translation is valid and the lease current and unexpired |
| `LocalizationWorker.LocalizationStore.FailLocalization` | backend/internal/postgres/localization.go:104-108 | only the current lease puts its job back |
| `LocalizationWorker.LocalizationStore.Drain` | backend/internal/localize/localize.go:39-68 | the drain between two waits ends after at most as many claims as attempts were left, idle or because a round failed |

## Left out

- Wrap-around of the 64-bit event and RPC ids: ids are unbounded numbers.
- The cache of runtime sessions: which session a turn gets is an input of `Submit`.
- JSON decoding, the Gherkin parser, regular expressions, UTF-8 validation, SHA-256 and HMAC are parameters; the text of error messages is not modelled.
- `redactHandoffSecrets` and the assembly of a handoff line: lines are inputs of the handoff.
- `SnapshotReader.Entries`: says whether a snapshot is accepted, not which of several reasons is reported, because that depends on the order of the parts.
- `ExecutionValidator.ValidateMessages`: results and receipts for runs the stream never starts are collected and not checked further, as in the source.
- JSONB storage of snapshots: the stored snapshot is the value that was imported.
- `RepositoryViews.ListingIsLastCatalogue`: speaks of the pages listed, not of their order, which the database's collation decides.
- Localizations attached to pages and versions, search scores and retrieval.
- `HistoryReceipts.ReadMessages`: texts on which opening a prompt leaves its slice bounds are outside; see `PromptFrame.OutOfRangeOnEmptyFrame`.
- `assistantBindingMatches`, which compares ids that `TurnRuns.GrantIsActive` is about.
- The 30-second timer of recent turns: an entry may vanish at any step.
- Comments, audit rows and the approval of step definitions.
- Rendering of step expressions: whether a step's definition resolves is an input.
- Which values of a text are protected, and reading prose without annotations: parameters of the localization queue.
- Liveness of development after a failed target call: such a revision stays running.
- HTTP, WebSocket, GitHub polling, ZIP reading, authentication and the user interface.
