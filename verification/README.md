# Verified models of the release toolkit and the desktop core

These Dafny modules model the protocols, graph walks, parsers and state machines of the
repository whose results are decided by the code itself, and prove what each is for. The
modules are checked together (`dafny verify dfyconfig.toml`).

## What is modelled

**Release ledger** (`Ledger`, `LedgerProtocol`, with `VersionPlan` for identities and
projections). Workflow runs share one JSON ledger on a branch. `Ledger.Repository` has the
steps of a run as methods, each proved equal to a function of the state it finds.
`LedgerProtocol` interleaves any number of runs, one request at a time, with stale snapshots,
rejected writes, writes that are lost and writes whose acknowledgement is lost; its theorems
hold in every reachable world. A blob identity is modelled by the content it names. A stored
ledger is at least as long as the two digests of each of its reservations; `LedgerLimits` shows
with that bound alone that the ledger fills up.

**OCI archives** (`OciGraph`, `OciArchive`, `OciReplay`, `OciMerge`, `Provenance`,
`ProvenanceLimit`). The
descriptor walk of `merge_oci_archives.py` is a class whose fields the walk fills; the
functions it is proved against carry the theorems about accepted inputs, nesting, merging and
the split into a runnable archive and a metadata sidecar. The digest is an abstract function
that is collision-free on the finite set of blobs at hand, so that no theorem assumes an
injection from all strings into 64 hex digits.

**Version inputs** (`JsonLexer`, `JsonDocument`, `JsonTree`, `JsonReader`, `JsonEdit`,
`VersionSync`, `JsonSync`). `JsonReader` is the offset-keeping reader as a class with its
loops, proved against a parse into a concrete syntax tree; printing and parsing are mutually
inverse on that tree; spans are the places of its tokens; splicing spans in descending order is
replacing tokens. `VersionSync` treats a format's editor as a partial function, and `JsonSync`
proves that the JSON editor has the laws its theorems need.

**Changelog scanner** (`Changelog`), **workflow call graph** (`WorkflowGraph`), **toolchain
diff** (`ToolchainDiff`), **setpoint override** (`Override`), **key migration**
(`KeyMigration`), **encrypted configuration** (`ConfigStore`), **unlock session**
(`AuthSession`), **settings save** (`SettingsSave`, over the two before it) and **package
readers** (`PackageReaders`): one module each, with the source's loops and mutable state as
methods and classes, and the properties as lemmas about the functions these are proved against.

## Where the code does less than it seems to

Each of these is a theorem here, with its exact condition and a case in which it happens.

- Only reading checks that a ledger has at most 4,000,000 bytes. A reachable ledger over the
  limit is final: nobody reads, reserves or publishes again (`OversizeFreezes`,
  `FrozenForever`). That is so for every ledger of more than 38,461 reservations
  (`CapacityIsFinite`), and however ledgers are encoded, reservations alone lead to one
  (`LedgersFillUp`).
- The same holds when the very first write is lost after the branch was created
  (`LostFirstWriteFreezes`); a single run can do that (`LostFirstWriteHappens`). No other
  reachable ledger is refused by its reader (`CommittedLedgersPassTheirChecks`).
- Detaching provenance from two accepted inputs that have it fails, after doing all its work,
  exactly when the two walks read more than 4096 metadata blobs together
  (`DetachSucceedsExactly`). With one attestation of `n` statements each, over the same
  statements, that is from 4090 statements on; the validators allow 4096 (`DetachLimit`). Blobs
  are abstract there: their sizes serve as labels, and are not the lengths of what they list.
- A JSON selector with a package check whose field is that package's own name is refused the
  second time unless it writes the same name (`SecondEdit`); this happens for any two names
  (`RenamedOnce`).
- A text has a changelog heading whose recorded offset lies inside a comment exactly when one of
  its lines begins inside a comment, ends it with its first three characters and goes on with
  one to six hashes and a delimiter (`HeadingsInsideComments`, `HeadingAfterCommentEnd`). The
  hashes themselves are never inside one (`HeadingsAreReal`).
- Equality of toolchain values is Python's: `true`, `1` and `1.0` are the same value. A bare
  not-a-number differs from itself (`SelfEqual`); one that stands at the same place of two
  containers is reported exactly if those containers are not equal (`NanIsReportedExactly`,
  `NumbersAsPythonComparesThem`).
- Between storing a changed policy and revoking, a check still accepts a session of the policy
  before; this is the only time (`LiveSessionsAreCurrent`, `OldSessionInTheWindow`).

## Model

| member | source | states |
|---|---|---|
| VersionPlan.IdentityInjective | scripts/version_plan.py:291-319 | Two accepted identities with the same text have the same base, channel and sequence. |
| VersionPlan.TagNamesIdentity | scripts/version_plan.py:363-430 | A valid plan's tag determines its base, channel and sequence. |
| VersionPlan.CreatePlan | scripts/version_plan.py:322-360 | A created plan passes the validation bound to its policy and source, and carries the inputs it was asked for. |
| VersionPlan.AppleBijection | scripts/version_plan.py:483-486 | The Apple projection maps 1..99,990,000 one to one onto 1..9999 x 0..99 x 0..99. |
| VersionPlan.AppleOrder | scripts/version_plan.py:483-486 | The Apple projection keeps and reflects the order of build numbers. |
| VersionPlan.AppleTextInjective | scripts/version_plan.py:483-486 | The rendered three-part text still determines the build number. |
| VersionPlan.NightlyNumberOrder | scripts/version_plan.py:472-481 | The development number is injective in (run, attempt) and ordered by it. |
| LedgerProtocol.NightlyDrafts | scripts/version_plan.py:322-508 | A well-formed nightly request is drafted exactly if a build number is left and every declaration can show run, attempt and number. |
| VersionPlan.NightlyPackageInjective | scripts/version_plan.py:454-494 | Two nightly packages of one base coincide only for one run and attempt, and their number never exceeds 2^64 - 2. |
| Ledger.Repository.ReadState | scripts/release_state.py:98-149 | Reading succeeds exactly for a ledger that meets every listed check, and for no ledger on no branch. |
| Ledger.Repository.WriteState | scripts/release_state.py:152-163 | A write replaces the file only if the identity read is still the current one and the request arrives. |
| Ledger.Repository.MaximumUsed | scripts/release_control.py:1476-1488 | The largest number used by a tag or release of this base and channel. |
| Ledger.Repository.MaximumReserved | scripts/release_state.py:166-215 | The largest number reserved in the ledger for this base and channel. |
| Ledger.Repository.ReservePlan | scripts/release_state.py:166-215 | An undisturbed reservation leaves exactly the specified branch, file and answer, for every input and every outcome of creating the branch and of the write. |
| Ledger.Repository.BeginPublication | scripts/release_state.py:305-330 | An undisturbed publication leaves exactly the specified file and answer. |
| LedgerProtocol.UninterruptedReserve | scripts/release_state.py:166-215 | The protocol's steps of one reservation, taken without interruption, are `ReservePlan`, whatever becomes of the branch and the write. |
| LedgerProtocol.UninterruptedPublish | scripts/release_state.py:305-330 | The protocol's steps of one publication, taken without interruption, are `BeginPublication`. |
| LedgerProtocol.TagsDiffer | scripts/release_state.py:193-211 | A drafted plan's tag differs from every tag in the ledger, unless both are stable. |
| LedgerProtocol.DraftTagIsUnused | scripts/release_control.py:1476-1488 | A drafted beta or RC tag is none of the tags and releases that were listed. |
| LedgerProtocol.DraftIsFresh | scripts/release_state.py:193-211 | A drafted plan passes its own validation, has a number above all reserved ones and a tag of its own. |
| LedgerProtocol.CommittedLedgersPassTheirChecks | scripts/release_state.py:98-149 | In every reachable world the committed ledger passes the reader's checks; a reader is refused exactly for a branch without its file or a file over the byte limit. |
| LedgerProtocol.NothingIsTakenBack | scripts/release_state.py:152-215 | Along every run counter and floor never decrease and no reservation is changed or lost. |
| LedgerProtocol.BuildNumbersAreUnique | scripts/release_state.py:166-215 | Reserved build numbers are pairwise distinct; two callers hold one plan exactly when they are the same run. |
| LedgerProtocol.RetryNeverWrites | scripts/release_state.py:178-192 | A run that already has a reservation gets that plan or a refusal, and nothing is written. |
| LedgerProtocol.NumbersAreConsumedInOrder | scripts/release_state.py:229-330 | Ordinary publications consume strictly increasing numbers, each at most once, and the floor is the last of them. |
| LedgerProtocol.PromotionCopiesTheLastConsumed | scripts/release_state.py:273-330 | A byte promotion lands only for the candidate consumed last and leaves the ledger unchanged. |
| LedgerProtocol.PrereleaseTagsAreUnique | scripts/release_state.py:193-214 | Beta, RC and nightly tags in the ledger differ from each other and from stable ones. |
| LedgerProtocol.FrozenForever | scripts/release_state.py:98-163 | Once no reader gets in and no snapshot is current, the file never changes and no reader gets in again. |
| LedgerProtocol.OversizeFreezes | scripts/release_state.py:98-163 | In every reachable world a file over the byte limit is read by nobody, and nobody who read before can still replace it. |
| LedgerProtocol.CapacityIsFinite | scripts/release_state.py:98-163 | A reachable ledger of more than 38,461 reservations is so frozen. |
| LedgerLimits.LedgersFillUp | scripts/release_state.py:152-215 | However ledgers are encoded beyond the digests of their reservations, reservations alone reach a ledger over the limit. |
| LedgerProtocol.LostFirstWriteFreezes | scripts/release_state.py:152-163 | A first write lost after the branch was created leaves a branch without its file, refused by the reader, in every continuation. |
| LedgerLimits.LostFirstWriteHappens | scripts/release_state.py:152-215 | One run whose write is lost leads there from a fresh repository. |
| OciArchive.Archive.Image | scripts/merge_oci_archives.py:316-376 | The method's fields after an image descriptor are the walk function's state, or it refuses. |
| OciArchive.Archive.Attestation | scripts/merge_oci_archives.py:424-528 | The same for an attestation, bound to the one image it may describe. |
| OciArchive.Archive.WalkNode | scripts/merge_oci_archives.py:273-314 | The same for any descriptor, with the depth and visit limits. |
| OciArchive.Archive.WalkIndex | scripts/merge_oci_archives.py:254-271 | The same for an index and its descriptors in order. |
| OciArchive.Archive.ValidateCompleteGraph | scripts/merge_oci_archives.py:168-175 | Accepts exactly one runnable image and attestations of that image. |
| OciReplay.AcceptedInput | scripts/merge_oci_archives.py:168-314 | An accepted input has leaves with distinct digests, exactly one image, and only attestations whose subject is that image. |
| OciReplay.NestingIsBounded | scripts/merge_oci_archives.py:254-285 | A successful walk met at most eight levels of nested indexes. |
| OciReplay.CyclesAreRefused | scripts/merge_oci_archives.py:254-285 | An index that reaches itself is refused; the walk still ends. |
| OciReplay.ReplayFiles | scripts/release_provenance.py:191-216 | Two sets of blobs that agree on what a walk touches are walked alike. |
| OciMerge.MergeArchives | scripts/merge_oci_archives.py:550-609 | The assembled archive is the specified one, or both are refused. |
| OciMerge.MergedLeavesAreOrdered | scripts/merge_oci_archives.py:573-581 | The merged leaves are the inputs' leaves, in the fixed order. |
| OciMerge.LeafOrderIgnoresInputOrder | scripts/merge_oci_archives.py:573-581 | The merged order depends only on which leaves each input has. |
| OciMerge.MergedArchiveIsComplete | scripts/merge_oci_archives.py:550-609 | Merging two accepted inputs never fails, keeps all blobs of both, lists exactly their leaves, and every descriptor reachable from the root names a present blob of its size. |
| Provenance.CollectRuntimeInputs | scripts/release_provenance.py:305-327 | The loops gather exactly the runnable blobs, descriptors and metadata of the specification. |
| Provenance.ReplayOriginal | scripts/release_provenance.py:191-262 | Replaying one original index over archive and sidecar reaches the specified walk and blob set. |
| Provenance.VerifyPairByReplay | scripts/release_provenance.py:222-262 | The verification loop accepts exactly the specified pairs, with every sidecar blob used. |
| Provenance.DetachedPair | scripts/release_provenance.py:305-411 | The archive is exactly both images with their canonical index, the sidecar exactly the metadata the walks read, and each replay ends as the original walk did. |
| Provenance.DetachSucceedsExactly | scripts/release_provenance.py:222-262 | Detaching with its closing verification succeeds exactly for two accepted inputs with provenance and at most 4096 metadata blobs. |
| ProvenanceLimit.DetachLimit | scripts/release_provenance.py:222-411 | Two accepted inputs with the same `n` statements, for any release and any `n` the validators allow, read `n + 7` blobs and are detached exactly if that is at most 4096. |
| JsonLexer.LexLocal | scripts/version_plan.py:593-602 | A scalar token keeps its value and length in front of anything that may follow it. |
| JsonLexer.TextRoundTrip | scripts/version_plan.py:656-664 | A written text reads back as its code points. |
| JsonLexer.IntRoundTrip | scripts/version_plan.py:656-664 | A written integer reads back as itself. |
| JsonDocument.ParsePrint | scripts/version_plan.py:553-602 | Every well-formed tree's printed form parses to that tree. |
| JsonDocument.PrintParse | scripts/version_plan.py:553-602 | Whatever parses is well formed and prints as exactly the text consumed. |
| JsonTree.SpansAreThePlaces | scripts/version_plan.py:593-602 | The recorded span of a path is the place of the scalar there, and other paths have none. |
| JsonTree.GetIsAt | scripts/version_plan.py:529-537 | Following a path through the value is following it through the text. |
| JsonTree.ReplaceSplices | scripts/version_plan.py:662-664 | Replacing a token of the tree is splicing its span in the text. |
| JsonTree.ReplaceValue | scripts/version_plan.py:662-664 | Replacing a token changes the value at that path and nowhere else. |
| JsonTree.Apart | scripts/version_plan.py:662-664 | Spans of two scalars are disjoint, and splicing the later one leaves the earlier in place. |
| JsonReader.JsonReader.Whitespace | scripts/version_plan.py:548-551 | The end of the white space at an offset. |
| JsonReader.JsonReader.Parse | scripts/version_plan.py:593-602 | Value, end and recorded spans are those of the parsed tree, or both refuse. |
| JsonReader.JsonReader.Object | scripts/version_plan.py:553-576 | The same for an object, with duplicate keys refused. |
| JsonReader.JsonReader.Array | scripts/version_plan.py:578-591 | The same for an array. |
| JsonEdit.ReadDocument | scripts/version_plan.py:605-613 | Data and spans of the one value a whole text holds. |
| JsonEdit.EditJson | scripts/version_plan.py:630-665 | The loops compute the specified edit: ownership checks, wanted scalars, descending splices. |
| JsonEdit.EditReplaces | scripts/version_plan.py:630-665 | The edited text parses to the same tree with only selected tokens replaced; the data has exactly the selected fields set; all other characters stay. |
| JsonEdit.SecondEdit | scripts/version_plan.py:630-665 | Editing again is accepted and changes nothing, exactly unless the selector renames the package it checks. |
| JsonEdit.RenamedOnce | scripts/version_plan.py:630-665 | For any two names there is a text whose first edit succeeds and whose second is refused. |
| JsonEdit.UnchangedHolds | scripts/version_plan.py:656-661 | A text the edit leaves alone already holds the value in every selected field. |
| JsonEdit.ConflictingEditsChange | scripts/version_plan.py:656-661 | No text satisfies two declarations that demand different values of one field. |
| VersionSync.Checkout.SyncVersions | scripts/version_plan.py:1041-1099 | Success, drift and written files are those of folding all edits and finding all of them still in force. |
| VersionSync.VerifyCheckout | scripts/version_plan.py:1216-1239 | Accepts exactly when each file is its committed or its planned content and the committed content shows the base. |
| VersionSync.SyncThenCheck | scripts/version_plan.py:1070-1099 | After a success every edit is a no-op, so an immediate check reports no drift. |
| VersionSync.FoldIsPerFile | scripts/version_plan.py:1048-1066 | The interleaved fold over all files is, on each file, the fold of that file's edits. |
| VersionSync.VerifySyncVerify | scripts/version_plan.py:1184-1239 | A verified checkout that is synchronised verifies again. |
| JsonSync.JsonIsStable | scripts/version_plan.py:630-665 | An edit that can hold together with another never undoes it, for all texts, selectors and values. |
| JsonSync.MeetIsExact | scripts/version_plan.py:630-646 | Whether two selectors share a field is decided by the declarations: it is the same in every document both accept. |
| JsonSync.ConflictIsRefused | scripts/version_plan.py:1070-1081 | Two declarations that share a field and demand different values are refused in either order. |
| WorkflowGraph.Search.Visit | scripts/workflow_contracts.py:216-234 | Success finishes the workflow and all it calls; refusal means the graph is not sound. |
| WorkflowGraph.ValidateGraph | scripts/workflow_contracts.py:237-243 | Accepts exactly the graphs in which everything reachable exists, meets the local rules and never calls itself, and returns exactly what is reachable. |
| ToolchainDiff.QueueMapping | scripts/release_versioned.py:61-78 | Pushes a mapping's fields so that they come off the stack in key order. |
| ToolchainDiff.QueueList | scripts/release_versioned.py:81-96 | Pushes a list's positions so that they come off in order. |
| ToolchainDiff.ToolchainChanges | scripts/release_versioned.py:99-125 | The stack terminates and yields the recursive comparison's findings in its order. |
| ToolchainDiff.SilentWhenEqual | scripts/release_versioned.py:99-125 | Nothing is reported exactly when the two values are equal as Python compares them. |
| ToolchainDiff.SelfEqual | scripts/release_versioned.py:99-125 | A value is reported against itself exactly if it is a bare not-a-number. |
| ToolchainDiff.NanIsReportedExactly | scripts/release_versioned.py:99-125 | A not-a-number at one place of two lists or two mappings is reported exactly if the two are not equal. |
| ToolchainDiff.NumbersAsPythonComparesThem | scripts/release_versioned.py:99-125 | No report for `true` against `1` or `1.0`; for a not-a-number alone, none against an equal mapping, one as soon as one of the mappings has a further key. |
| ToolchainDiff.PlacesAreDistinct | scripts/release_versioned.py:99-125 | No field is reported twice. |
| ToolchainDiff.RawPathsDiffer | scripts/release_versioned.py:61-96 | Before redaction, two places share a path only if they are the same place: the key escaping is injective. |
| ToolchainDiff.UnredactedPath | scripts/release_versioned.py:54-78 | A place whose path before redaction is short and plain is reported under exactly that path. |
| ToolchainDiff.PathsDiffer | scripts/release_versioned.py:54-78 | Two places share a diagnostic path only by a digest collision. |
| ToolchainDiff.ReportsShareNoPath | scripts/release_versioned.py:54-125 | Two reports of one comparison share a path only by a digest collision. |
| Changelog.CodeSpanEnds | scripts/release_control.py:1589-1599 | The reverse pass maps a run's start to what a naive forward search finds, for every offset. |
| Changelog.CommentLine | scripts/release_control.py:1602-1624 | The in-place loop terminates and masks as specified. |
| Changelog.MaskIsExact | scripts/release_control.py:1602-1624 | Exactly the characters inside comments, line breaks aside, become spaces; all others stay. |
| Changelog.MaskedIsComment | scripts/release_control.py:1602-1624 | What is masked lies between the start of a comment and the first `-->` after it. |
| Changelog.ReleaseLines | scripts/release_control.py:1638-1660 | Every line is shown as the scanner's state at that line demands. |
| Changelog.LineAt | scripts/release_control.py:1638-1660 | Every line is the text between its summed offsets. |
| Changelog.LinesEnd | scripts/release_control.py:1638-1660 | The lines reach exactly to the end of the text, so together they tile it. |
| Changelog.ReleaseHeadings | scripts/release_control.py:1672-1689 | The headings are those of the shown lines, with offsets into the text. |
| Changelog.HeadingsInOrder | scripts/release_control.py:1672-1689 | Headings come in strictly increasing order without overlap. |
| Changelog.HeadingMarks | scripts/release_control.py:1602-1689 | A heading's hashes are the original's own; what precedes them is at most three spaces or the end of the comment the line started in. |
| Changelog.HeadingsAreReal | scripts/release_control.py:1638-1689 | Every heading is a line outside fences whose hashes stand in the text at its offset. |
| Changelog.HeadingInComment | scripts/release_control.py:1602-1689 | A line that begins inside a comment is a heading exactly if it is `-->`, one to six hashes and a delimiter, a comment or the end. |
| Changelog.HeadingsInsideComments | scripts/release_control.py:1638-1689 | A text has a heading whose offset lies inside a comment exactly if it has such a line. |
| Changelog.HeadingAfterCommentEnd | scripts/release_control.py:1638-1689 | A text whose heading offset lies inside its comment. |
| Changelog.ReleaseSections | scripts/release_control.py:1692-1700 | The sections are those of the dividing headings. |
| Changelog.SectionsAreExact | scripts/release_control.py:1692-1700 | A section runs from its heading to the next of at most its level or the end, and holds no other such heading. |
| Changelog.SectionsAreDisjoint | scripts/release_control.py:1692-1700 | Sections of one level are ordered and disjoint. |
| Changelog.HeadingHasSection | scripts/release_control.py:1692-1700 | Every heading of the level has its section. |
| Override.SetOverrideWith | src-tauri/src/gateway_actions.rs:269-319 | Outcome and history of the polling loop are those of the specified run. |
| Override.EveryRunIsSafe | src-tauri/src/gateway_actions.rs:269-319 | At most one POST, only after an active, usable preflight; success only for a matching error-free read after it on an active connection; all by the deadline, with at most 50 acknowledgement reads. |
| KeyMigration.Keeper.MigrateOrCreateKey | src-tauri/src/config_store.rs:78-107 | One call leaves the specified file, store and result under every fault. |
| KeyMigration.FileOutlivesVerification | src-tauri/src/config_store.rs:78-107 | The file is removed only once the store holds its key, a fresh key is drawn only without file and entry, and a stored key is replaced only by the file's. |
| KeyMigration.OneKeyForever | src-tauri/src/config_store.rs:78-107 | Once a call returned a key, every later success returns it. |
| KeyMigration.LegacyKeyIsNeverLost | src-tauri/src/config_store.rs:78-107 | Over any calls a legacy key is in its file or alone in the store, and every success returns it. |
| ConfigStore.Store.SaveDocument | src-tauri/src/config_store/document.rs:71-106 | The file is replaced only if it still is what was read. |
| ConfigStore.Store.LoadPath | src-tauri/src/config_store.rs:240-280 | A load leaves the specified file, result and write attempt. |
| ConfigStore.Store.SavePath | src-tauri/src/config_store.rs:315-330 | A save leaves the specified file and result. |
| ConfigStore.LoadSettles | src-tauri/src/config_store.rs:240-280 | After one successful load of any form the next writes nothing and returns the same configuration, stored without plaintext password. |
| ConfigStore.LoadAfterSave | src-tauri/src/config_store.rs:315-330 | Loading after a save returns the migrated configuration without writing. |
| ConfigStore.LegacyKeyOpensNoVersion | src-tauri/src/config_store.rs:178-186 | The legacy key never decides a versioned or unknown envelope; unknown versions are refused untouched. |
| ConfigStore.OnlyTheConfiguration | src-tauri/src/config_store.rs:240-330 | Other entries stay, and a failed call changes nothing. |
| ConfigStore.MigratedIsClean | src-tauri/src/auth_password.rs:66-78 | Migration leaves no plaintext password and a well-formed verifier, and reports exactly whether it changed anything. |
| ConfigStore.SettingsRoundTrip | src-tauri/src/auth_password.rs:82-103 | A settings save keeps the verifier unless a password it does not match is given, and loads back as prepared. |
| AuthSession.Sessions.Unlocked | src-tauri/src/auth.rs:39-49 | A check drops an expired session and reports whether one is left. |
| AuthSession.Sessions.Login | src-tauri/src/auth.rs:180-204 | A login under the stored policy grants, refuses or is not needed, as specified. |
| AuthSession.UninterruptedLogin | src-tauri/src/auth.rs:180-204 | The protocol's steps of one login, taken without interruption, are that method. |
| SettingsSave.App.Logout | src-tauri/src/auth.rs:217-221 | A logout leaves no session and the file as it was. |
| AuthSession.LogoutLasts | src-tauri/src/auth.rs:217-221 | After a logout no session exists until the next grant, whatever else happens. |
| AuthSession.Sessions.RevokeIfChanged | src-tauri/src/auth.rs:98-130 | The session is cleared exactly when the policy changed. |
| AuthSession.LiveSessionsAreCurrent | src-tauri/src/auth.rs:39-204 | In every interleaving a live session is under 15 minutes old, and was granted under the stored policy exactly unless a save has yet to revoke. |
| AuthSession.RevocationIsComplete | src-tauri/src/lib.rs:756-796 | When such a save ends, no session is left. |
| AuthSession.GrantsAreCurrent | src-tauri/src/auth.rs:178-275 | Every grant is made under the policy stored at that moment, with authentication enabled. |
| AuthSession.OldSessionInTheWindow | src-tauri/src/lib.rs:756-796 | The window between storing and revoking is reachable for any two different policies. |
| SettingsSave.App.Save | src-tauri/src/lib.rs:756-791 | One settings save leaves the specified file, session and answer, under every outcome of its reads, checks and commit. |
| SettingsSave.SessionsFollowTheFile | src-tauri/src/config_store.rs:303-330 | However the commit goes, also when its durability is not confirmed, a session left by a save answers to the policy the file then holds. |
| SettingsSave.SessionsAlwaysFollow | src-tauri/src/auth.rs:39-221 | Over any sequence of saves, logins, logouts and checks, from any file, a session answers to the policy the file holds. |
| SettingsSave.OnlyChangesRevoke | src-tauri/src/lib.rs:765-785 | A save that was not locked out ends the session exactly if it stored another policy. |
| PackageReaders.DataArchive | scripts/rc_smoke/prepare.py:53-79 | Returns the data member exactly for the magic followed by printed legal members with distinct names. |
| PackageReaders.ReadsExactlyPrinted | scripts/rc_smoke/prepare.py:56-77 | Bytes read as these members exactly when they are their printed form. |
| PackageReaders.OneData | scripts/rc_smoke/prepare.py:53-79 | A file is a package in one way only, so printing then reading returns the data member. |
| PackageReaders.ValidateTarEnd | scripts/rc_smoke/prepare.py:101-116 | Accepts exactly the aligned strings tiled by records, two zero blocks and zeros. |
| PackageReaders.TiledReads | scripts/rc_smoke/prepare.py:101-116 | Any legal tiling is scanned record by record to its end marker. |

## Left out

- GitHub transport: requests become steps with an outcome; the several reads that make up one
  listing of tags and releases are one instant.
- Byte budgets of JSON documents, sidecars and archives, except the ledger's size and the 4096
  metadata blobs; the recursion limit and the digit limit of Python's `int`.
- Hashing, Argon2, authenticated encryption, base64, compression and serde are abstract
  functions with the laws stated where they are used.
- Files are maps from names to bytes: links, confinement, temporary files, permissions and
  `fsync` are not modelled; `_apply_version_edits` is one atomic step without other writers.
- The calendar check of nightly timestamps, and policy shape checks beyond those a plan uses.
- TOML, Python, plist, pbxproj and text editors: `VersionSync` covers them as any editor with
  the stated law, which is proved for JSON only.
- `sync_versions` evidence records: previous values and digests are not part of the result.
- `git` in `verify_checkout`: committed files and the matching head commit are given.
- Media types, annotations and platform strings of OCI documents are taken as the few cases the
  walk tells apart; malformed JSON types inside a document are a refusal.
- Section bodies are ranges of the text; stripping them and the guidance and underline checks
  on them are not modelled.
- `_callable_workflow`: YAML loading; jobs are the three facts it looks at.
- `execute_with` and its action parser, whose one POST per call is read off the code.
- What a settings save reconciles before it stores (plugins, cameras, modules) and its refusals;
  the saved settings are the reconciled ones.
- The encryption-key cache, macOS and mobile key stores and plugin settings.
- Settings other than the authentication policy; the IPC command list; lock poisoning.
- VersionSync.VerifySyncVerify: holds for editors under the law `Stable`, because nothing else is
  known of a format's editor; `JsonIsStable` proves that law for JSON.
- Provenance.DetachedPair: assumes that the digest separates the finitely many blobs at hand,
  because no digest separates all byte strings; `Provenance.DetachSucceedsExactly` and
  `OciMerge.MergedArchiveIsComplete` rest on the same assumption.
- ConfigStore.LoadSettles: assumes ideal authenticated encryption, as do the other lemmas that
  mention `Ideal`, because forging an envelope is outside this model.
- Override.SetOverrideWith: time passes only in reads, the POST and pauses, because the code
  between them does not wait.
- LedgerLimits.LedgersFillUp: the stored length is the digests of the reservations plus an
  arbitrary rest for each ledger, because the encoding itself is not modelled.
- SettingsSave.SessionsFollowTheFile: assumes ideal authenticated encryption and no other writer
  between the last read and the commit, whose content would decide instead;
  `SettingsSave.SessionsAlwaysFollow` assumes the same of every command.
- SettingsSave.SessionsAlwaysFollow: takes one command after the other and leaves out the biometric
  prompt, because `AuthSession` covers both.
- LedgerProtocol.CommittedLedgersPassTheirChecks: reads the file and the branch at one instant,
  because a read is one step here; `read_state` asks for the branch in a second request when the
  file is missing, so it also refuses when the first reservation lands between the two.
- LedgerProtocol.UninterruptedReserve: states the equivalence for a world whose file implies its
  branch, because the repository has no file without the branch.
- KeyMigration.OneKeyForever: assumes that the returning call's removal, if reported, happened,
  because a file system that reports a removal it did not do can bring the file back.
- JsonEdit.EditReplaces: the order of keys equal up to Unicode normalisation is not considered,
  because code points are compared as they are.
