# Orchestrator core: a Dafny model

The orchestrator keeps agent instances running in sandboxes. This project models the parts of it whose
correctness is not visible in any one function, and proves what they promise.

- **In-place swaps** (`SwapProtocol`, `InstanceService`, `IdleGate`, `Retry`, `Replay`, `StateFiles`,
  `StatePaths`). An instance row moves from an old sandbox to a new one while any backend call may fail and
  several swaps may run at once; a sealed mirror of the instance's files is replayed into the new sandbox before
  that sandbox may write back.
- **The local key store** (`KmsContexts`, `KeyFiles`, `KeyDirectory`, `Envelope`, `SystemSecretNames`, `Secrets`,
  `Columns`, `Migration`). Versioned keys per scope and owner, context-bound envelopes, rewrap on read, a cache over key
  files, and a migration that may stop at any row.
- **Minting at most once** (`Minting`). The unlocked check, the lock registry and the check under the lock.
- **MCP configuration** (`DockerArgs`, `Templates`, `Catalog`, `McpEdit`, `McpIndex`, `OAuthFlow`). Argument scanners that
  must agree, a one-pass template renderer, edits that keep stored credentials, an index of names kept beside the
  entries, an expiring one-shot cache.
- **Network entries and probes** (`NetworkPolicy`, `Probe`).

`Wrappers` and `Text` hold results and string functions shared by the rest.

## How things are represented

- Concurrency is a state machine whose actions are the stretches between awaits; a theorem about runs holds for
  every interleaving. Operations the source runs one at a time on an object are methods of a class.
- A call that may fail is a nondeterministic choice, or a reply given as a parameter. A failed store call changes
  nothing. A push or file restore that was not acknowledged may still have been applied.
- Ciphertexts are symbolic: a blob opens under the key that sealed it and no other. JSON and Base64 (section 4 of
  RFC 4648) are constructors and so invert.
- Sandbox ids, keys and state generations come from supplies that never repeat. `replace_cube_sandbox` is one step
  that sets sandbox, generation and status together, and `rewrap_body` is a compare-and-swap on the old bytes.
- A sandbox's files are keyed by the components of their path, so spellings of one file are one file. Only a sandbox the
  row has named serves its user.
- `names`, `gens`, `log`, `trace`, `history` and the counters of `Minting.State` are bookkeeping used by the
  statements; the source does not store them.

## Where the code and its documentation differ

The code is followed in each case.

- `forget_user` is documented to make a user's ciphertexts unrecoverable. It does so exactly for rows that are not
  version-2 envelopes: `Envelope.ForgetUserErasesOnlyLegacy`.
- A dry-run migration is meant to predict the real one. It cannot see a row whose owner may not own a key or whose
  active key file is malformed: `Migration.DryRunPredicts` gives the exact condition, `Migration.DryRunBlindSpot` an
  input.
- The migration is meant to take every sealed row. It opens proxy tokens without the owner the token store seals them
  with, so a token issued for an owned instance stops it: `Migration.MigrationMissesIff` says exactly which rows do,
  `Migration.IssuedTokenStopsMigration` gives an input. Tokens it did migrate still read, by the token store's fallback.
- Contexts are meant to tell rows apart. A state file's and an artefact's name is joined with a colon, so two rows share
  a context exactly when their names are one text cut at two of its colons: `Migration.SharedContextIff`, with
  `Migration.ColonsShareContext` for an input. The services accept no namespace or chat id with a colon, and so meet no such
  pair (`Migration.ContextsAreApart`).
- Placeholder chat bodies are meant never to replace a longer body. The check and the write are two awaits, and a run
  loses a longer body exactly when some placeholder is written after a longer body overtook it:
  `StateFiles.PlaceholdersClobberIff`; `StateFiles.ClobberIsReachable` is such a run from an empty store.
- A Live row is meant to name a configured sandbox. Over any interleaving of swaps this holds at every point exactly
  when no live mark lands on a row that another run has repointed and nobody has configured:
  `SwapProtocol.LiveConfiguredExactly`. Runs that never commit without a mirror inside another run's window between
  commit and live mark are safe (`SwapProtocol.LiveMeansConfigured`); a commit that breaks this rule may be harmless,
  and can always be continued to a bad row (`SwapProtocol.UnguardedCommitBreaksLive`), which two recreates of a settled
  instance do reach (`SwapProtocol.LiveUnconfiguredIsReachable`).
- Rendering a catalog template again is meant to change nothing. It may choose another token when the rendered headers
  spell `Authorization` in several ways that disagree, because the header map has no order:
  `Catalog.RenderingAgainChangesNothing` and `Catalog.AmbiguousAuthMayDiffer`, with a template for each case in
  `Catalog.PlainServerIsStable` and `Catalog.TwoTokensMayDiffer`.
- `put_all` is documented to replace the previous configuration. It leaves entries that are not in the new list, so it
  does so exactly when the list covers them all: `McpIndex.McpStore.PutAll`.
- `ensure_secret` is documented to generate once per instance and to return the same secret ever after. With
  `forget_secret` at any point of any run, all callers ever answered agree exactly when no put lands once some caller has
  been answered: `Minting.AnswersAgreeIff`; `Minting.ForgettingSplitsCallers` is a run that fails.
- An edit form that sends the keep token is documented to keep the sealed value. With no other secret of that shape
  stored, the token itself is stored: `McpEdit.KeepTokenStoredIff`, and `McpEdit.FirstSaveStoresKeepToken` for an input.
- `copy_all` is documented to overwrite the destination's index and entries. Entries of the destination that the source
  does not name stay, without a name in the index: `McpIndex.McpStore.CopyAll` says exactly when, and
  `McpIndex.StrayEntryStays` gives an input. Both callers copy to a new instance, where nothing is left over.
- Mirror rows are unique by the text of their path, and the path check accepts several spellings of one file. A replay is
  the overlay of its rows exactly when rows that spell the same file agree: `Replay.FoldIsOverlayIff`; otherwise the row
  listed last wins: `Replay.AliasesDisagree`.
- The name `_index` passes the server-name test and is the index row's own name: the puts in `McpIndex` say exactly
  when that breaks the index.
- The idle wait is commented as five checks; it makes up to eleven: `IdleGate.WaitForIdle`.
- The retry budget is documented as about 75 seconds; the sleeps add up to 71.5: `Retry.Budget`.

## Model

| member | source | states |
|---|---|---|
| `SwapProtocol.RowNeverNamesADoomedSandbox` | crates/core/src/instance.rs:1651-1747 | for every interleaving of rotate, restore-snapshot, recreate and reset runs with any call failing, the row never names a sandbox sent to `destroy_sandbox`, and no sandbox or generation is named twice |
| `SwapProtocol.SettledIsSafe` | crates/core/src/instance.rs:2677-2854 | an instance that was created and configured and never swapped is a starting point for every run |
| `SwapProtocol.DestroysOnlyItsOwn` | crates/core/src/instance.rs:1848-1921 | a step dooms only its run's own sandbox that was never named, or the sandbox its run read and has itself replaced |
| `SwapProtocol.MirrorBeforeCredentials` | crates/core/src/instance.rs:672-757 | over every interleaving, a mirror-backed run sends its new sandbox credentials, and repoints the row to it, only once that sandbox holds its image with every listed row replayed over it, every row the caller's own and, in a recreate, readable |
| `SwapProtocol.ReplayCompletesIff` | crates/core/src/instance.rs:2154-2222 | posting all remaining rows finishes a replay if and only if each is the caller's own and, in a recreate, readable: an unreadable row stops a recreate and no other swap |
| `SwapProtocol.EveryRunKeepsFiles` | crates/core/src/instance.rs:2132-2256 | over every interleaving, a sandbox not yet named holds its image and exactly the rows restored so far, or one more that was not acknowledged |
| `SwapProtocol.LiveMeansConfigured` | crates/core/src/instance.rs:1713-1729 | in every guarded interleaving a Live row names a sandbox that accepted a configure for the row's own generation |
| `SwapProtocol.UnguardedCommitBreaksLive` | crates/core/src/instance.rs:1713-1729 | any commit that breaks the guard can be continued to a Live row that is not configured |
| `SwapProtocol.LiveConfiguredExactly` | crates/core/src/instance.rs:1713-1729 | over any interleaving a Live row is configured at every point if and only if no live mark was made by a run whose sandbox the row no longer names, on a row nobody has configured |
| `SwapProtocol.LiveUnconfiguredIsReachable` | crates/core/src/instance.rs:1936-2037 | from any settled instance two recreates without a mirror reach a Live row that is not configured |
| `SwapProtocol.StepKeepsBase` | crates/core/src/instance.rs:564-644 | every step keeps what is known of each run: its target unnamed before the commit, its source retired after it, its generation unused before it |
| `SwapProtocol.StepNamesNoDoomed` | crates/core/src/instance.rs:2084-2130 | no single step makes the row name a doomed sandbox |
| `SwapProtocol.StepKeepsWindow` | crates/core/src/instance.rs:2002-2026 | while the row is not configured only the run that repointed it is between commit and live |
| `IdleGate.WaitForIdle` | crates/core/src/instance.rs:1487-1543 | the loop ends as the replies and their durations say, within eleven rounds; the timeout is reached only when no round took the latch and the whole wait is over; the latch is ours exactly when the last round took it |
| `Retry.PushWithRetry` | crates/core/src/instance.rs:87-125 | stops at the first answer that is not transient or after twelve; succeeds exactly if that answer is a success; sleeps exactly the capped doubling sum |
| `Retry.Budget` | crates/core/src/instance.rs:87-115 | the sleeps of twelve attempts add up to at most 71.5 seconds |
| `InstanceService.Service.InPlaceSwap` | crates/core/src/instance.rs:1433-2130 | success leaves the row Live on the next sandbox and generation, configured, with the old sandbox doomed; where a mirror is configured every file of the new sandbox is as its last write left it, otherwise as the image had it; a recreate then found every durable live row readable, and an unreadable row stops no other swap; a failure leaves the row as it was or, once repointed, Configuring; the new sandbox is destroyed exactly where the source does; a quiesced source is left latched exactly after the swap or a token error |
| `InstanceService.Service.ReplayAndConfigure` | crates/core/src/instance.rs:672-757 | success means the sandbox holds the whole replay; a row stops it only by belonging to somebody else or, in a recreate, by not opening |
| `InstanceService.Service.Cutover` | crates/core/src/instance.rs:1680-1747 | from the commit on the run ends Live with the old sandbox doomed, or Configuring with nothing doomed |
| `InstanceService.Service.PushWithRetry` | crates/core/src/instance.rs:87-125 | stops at an acknowledgement, at a final failure or after twelve attempts; moves only its own run's phase, and only when acknowledged; the row, the files and the doomed set stay |
| `InstanceService.Service.Sweep` | crates/core/src/instance.rs:1064-1218 | keeps the row's sandbox and generation; success means configured and, for a Configuring row whose mirror holds anything, that the sandbox's files are overlaid with it; only a Configuring row it cannot finish is given up; with a mirror its files are as their last writes left them |
| `InstanceService.Service.CreateInstance` | crates/core/src/instance.rs:2483-2864 | success is a Live, configured, settled row on the next sandbox, which holds its image; only a failed create destroys a sandbox, and only the one it made, which its row then names as Destroyed or Configuring; a failed restore destroys none |
| `Replay.Replayer.ReplayStateFiles` | crates/core/src/instance.rs:2132-2256 | success is exactly the rows' outcomes applied in order, counted; told from the writes of each file, a deleted file is gone, a readable body is restored, an empty transcript, an unreadable row and a path outside the allowlist leave the file alone; a strict success means every durable live row opened; each error names the first row that caused it, with the rows before it applied and none after |
| `Replay.Replayer.HasDurableMirroredStateFiles` | crates/core/src/instance.rs:1001-1056 | true exactly when some durable file was last deleted or last written with a readable body that is no empty transcript |
| `Replay.Replayer.RestoreWithRetry` | crates/core/src/instance.rs:151-178 | success applies the change; a failure leaves it applied or not, and nothing else |
| `Replay.FoldIsOverlayIff` | crates/core/src/instance.rs:2132-2256 | the replay is the overlay of its rows, each file as its row says and every other untouched, if and only if rows that spell the same file agree |
| `Replay.OrderDoesNotMatter` | crates/core/src/instance.rs:2132-2256 | where they agree, order and repetition of the rows do not matter |
| `Replay.AliasesDisagree` | crates/core/src/state_files.rs:252-345 | two spellings of one durable file with different bodies: the row listed last wins, either way round |
| `Replay.ReplayIsIdempotent` | crates/core/src/instance.rs:2132-2256 | replaying what was already replayed changes nothing |
| `Replay.OutcomeAgrees` | crates/core/src/instance.rs:2161-2222 | key lookups made while replaying do not change what any row means |
| `Replay.OutcomeTold` | crates/core/src/instance.rs:2161-2222 | what a row amounts to, told from the writes of its file: it settles the file exactly when the path is durable and the last write deleted it or left a readable body that is no empty transcript |
| `Replay.UnreadableIff` | crates/core/src/instance.rs:2170-2214 | a row is unreadable exactly when it is durable, live and its body does not open |
| `Replay.FoldTold` | crates/core/src/instance.rs:2132-2256 | after the replay each file is as the last write of the last row that settles it left it, and untouched if none does |
| `Replay.EachFileAsWritten` | crates/core/src/instance.rs:2132-2256 | where rows that settle one file agree, every such file is as its own last write left it |
| `Replay.PassTold` | crates/core/src/instance.rs:2154-2214 | a replay gets past every row exactly when the caller owns them all and, in a strict run, none is unreadable |
| `StateFiles.EveryRunKeepsTheLastWrite` | crates/core/src/state_files.rs:59-220 | for every interleaving of ingests, deletions, reads and delayed rewraps, the row holds exactly the last accepted write: its plaintext under its owner and its length, or nothing after a deletion |
| `StateFiles.UnwrittenIsSound` | crates/core/src/db/sqlite/state_files.rs:78-110 | a file nobody has written is a starting point for every run |
| `StateFiles.ReadReturnsWhatWasWritten` | crates/core/src/state_files.rs:161-215 | a read answers with the last write its snapshot saw, and fails exactly when a version-2 row's active version is unreadable |
| `StateFiles.RewrapMatchesOwner` | crates/core/src/db/sqlite/state_files.rs:184-203 | a rewrap whose compare-and-swap matches finds the same owner and the same plaintext |
| `StateFiles.RowReads` | crates/core/src/state_files.rs:161-215 | a row left by a run answers a read with the last write |
| `StateFiles.ReadRewrapsIff` | crates/core/src/state_files.rs:195-212 | a read asks for a rewrap exactly when the body is no envelope under the active key and can be sealed, and offers one that is |
| `StateFiles.IngestLands` | crates/core/src/state_files.rs:59-127 | an ingest nobody overtakes writes its body if and only if it passes the checks |
| `StateFiles.TombstoneLands` | crates/core/src/db/sqlite/state_files.rs:109-147 | a deletion lands on every valid file, whatever the row holds |
| `StateFiles.InstanceIds` | crates/core/src/state_files.rs:394-403 | an instance id holds no slash and no double dot; single dots are fine |
| `StateFiles.LazyRewrapLands` | crates/core/src/state_files.rs:161-215 | a read nobody overtakes leaves the body under its active key and changes nothing that is read |
| `StateFiles.PlaceholdersClobberIff` | crates/core/src/state_files.rs:59-127 | over any interleaving no placeholder replaces a longer live body if and only if none is written after a longer body overtook it |
| `StateFiles.OvertakenPlaceholderClobbers` | crates/core/src/state_files.rs:59-127 | from any state with a placeholder past its check, any longer body that lands first is replaced by it |
| `StateFiles.ClobberIsReachable` | crates/core/src/state_files.rs:59-127 | a run from an empty store and an unwritten transcript in which the real conversation is replaced by the empty one |
| `StatePaths.TrimAsciiWhitespace` | crates/core/src/state_files.rs:369-383 | the two loops return the input without its surrounding ASCII white space |
| `StatePaths.DurableHasAliases` | crates/core/src/state_files.rs:252-345 | doubling any slash of a durable path gives another durable path with the same components |
| `StatePaths.DurableNeverEscapes` | crates/core/src/state_files.rs:277-298 | no durable path is absolute, climbs or names anything hidden |
| `StatePaths.PlainPathDurableIff` | crates/core/src/state_files.rs:277-315 | a path of plain parts is durable always among the chats, and in the workspace exactly if it is mirrored there |
| `StatePaths.WorkspaceMirrors` | crates/core/src/state_files.rs:300-323 | which workspace paths are mirrored, directory by directory |
| `StatePaths.PlaceholderIff` | crates/core/src/state_files.rs:348-367 | a placeholder is exactly an empty list as a chat's transcript or the default title as its title, white space aside |
| `KmsContexts.ScopedKeyIdExists` | crates/core/src/envelope.rs:1008-1059 | a context has a key id exactly when its scope's owner requirement is met, and that id is well formed |
| `KmsContexts.SharedKeyId` | crates/core/src/envelope.rs:1008-1041 | two contexts share a key id exactly when they have the same scope and, in a user scope, the same owner, except that MCP secrets have a key of their own |
| `KmsContexts.PartsSuffice` | crates/core/src/envelope.rs:1043-1059 | the checks on leading and doubled slashes follow from the check on the parts |
| `KmsContexts.UserIds` | crates/core/src/envelope.rs:998-1006 | a user id is `system` or thirty-two hexadecimal digits, and so one clean path segment |
| `KeyFiles.RunKeepsVersionedKeys` | crates/core/src/envelope.rs:885-975 | over every run of lookups, rotations and erasures, versioned key files survive unchanged and keys stay distinct |
| `KeyFiles.LookupsExtend` | crates/core/src/envelope.rs:917-949 | no lookup loses a file or moves an active version, and every key it makes is fresh |
| `KeyFiles.ForContextCreatesOnlyActive` | crates/core/src/envelope.rs:934-957 | the only file a context lookup adds is that context's active version |
| `KeyFiles.FirstVersionIsOne` | crates/core/src/envelope.rs:885-943 | without an active file version one is active, and the first lookup writes both files |
| `KeyFiles.RotationTakesEffect` | crates/core/src/envelope.rs:934-949 | the next lookup after a rotation uses the version it names; zero or garbled text stops lookups |
| `KeyDirectory.AgeCipherDirectory.ForUser` | crates/core/src/envelope.rs:917-932 | the cached answer and the files are those of a fresh load from disk |
| `KeyDirectory.AgeCipherDirectory.ForContext` | crates/core/src/envelope.rs:934-943 | the cached answer is that of a fresh load, and the files mean the same |
| `KeyDirectory.AgeCipherDirectory.ForKeyId` | crates/core/src/envelope.rs:951-957 | answers as a fresh load and never changes a file |
| `KeyDirectory.AgeCipherDirectory.VersionedCipher` | crates/core/src/envelope.rs:885-912 | the cache hit, the failed load and the creation all agree with a fresh load |
| `KeyDirectory.AgeCipherDirectory.ForgetUser` | crates/core/src/envelope.rs:959-975 | drops the cached key with the file, so no later lookup answers from the cache |
| `KeyDirectory.VersionTagInjective` | crates/core/src/envelope.rs:885-912 | the cache key of a well-formed key id is no other key id's, even an ill-formed one's |
| `Envelope.SealedOpensLater` | crates/core/src/envelope.rs:502-615 | in any later directory state a sealed value opens under its context to what was sealed and asks for a rewrap exactly when the active version moved |
| `Envelope.SplicedNeverOpens` | crates/core/src/envelope.rs:554-615 | a ciphertext never yields plaintext under another context, under other metadata, or as a bare legacy row |
| `Envelope.RewrapClearsFlag` | crates/core/src/envelope.rs:493-532 | rewrapping keeps the plaintext and clears the request for a rewrap |
| `Envelope.SealSucceeds` | crates/core/src/envelope.rs:502-532 | sealing succeeds exactly when the active version is readable and its file, if present, well formed |
| `Envelope.OpenAgrees` | crates/core/src/envelope.rs:554-615 | more key files change neither whether a row opens nor to what |
| `Envelope.OpensIffRecovers` | crates/core/src/envelope.rs:582-615 | a version-2 row opens exactly when its key gives the bound payload and the active version is readable |
| `Envelope.RewrapAskedIff` | crates/core/src/envelope.rs:554-615 | a row that opens asks for a rewrap exactly when it is not a version-2 envelope under the active key of its context |
| `Envelope.LegacyOpensIff` | crates/core/src/envelope.rs:565-573 | a column from before envelopes opens exactly under the key file of the user it belongs to |
| `Envelope.ForgetUserErasesOnlyLegacy` | crates/core/src/envelope.rs:959-975 | erasing a user makes exactly the rows that are not version-2 envelopes unreadable |
| `Envelope.ForgetUserHitsOwner` | crates/core/src/envelope.rs:304-311 | erasing a user makes a readable row unreadable exactly when it is that owner's, or the system's, and is not a version-2 envelope |
| `SystemSecretNames.ConfigureScopeExactly` | crates/core/src/secrets.rs:151-161 | the configure scope is used for exactly the names built for a non-empty instance id |
| `Secrets.ContextsAreDistinct` | crates/core/src/secrets.rs:50-161 | no two secret names share a context |
| `Secrets.SecretsService.Get` | crates/core/src/secrets.rs:58-131 | reading changes no plaintext, returns the stored one, leaves it a version-2 envelope under its active key and rewrites it only if it was not; a rewrap that cannot be sealed or stored fails the read |
| `Secrets.SecretsService.Put` | crates/core/src/secrets.rs:50-110 | a successful put changes that name's plaintext and no other; a failed one changes none |
| `Secrets.PlaintextsAfterSeal` | crates/core/src/secrets.rs:50-56 | storing a freshly sealed value changes one plaintext and leaves it up to date |
| `Migration.Database.MigrateSqlite` | crates/core/src/kms_local.rs:210-230 | however the run ends the service behind every column reads what it read before; a completed real run leaves every row that holds anything a version-2 envelope under its active key; it reports as migrated exactly the rows that were not, with one audit row for each, and its counts per table and scope are those of the rows; an aborted run is a completed one up to some row |
| `Migration.Database.MigrateRow` | crates/core/src/kms_local.rs:232-270 | one row is left as it was or rewrapped, whichever store call fails |
| `Migration.DryRunPredicts` | crates/core/src/kms_local.rs:101-162 | a dry run changes nothing and reports the real run's counts; the real run completes exactly when the dry run does and every row to rewrap can be sealed |
| `Migration.DryRunBlindSpot` | crates/core/src/kms_local.rs:101-162 | a row on which the dry run succeeds and the real run does not |
| `Migration.SecondRunIsIdle` | crates/core/src/kms_local.rs:101-162 | after a completed run every row that holds anything is an envelope under its active key, and a second run migrates none and changes nothing |
| `Migration.StepEffect` | crates/core/src/kms_local.rs:101-162 | a row is stepped over exactly when it is readable and, if it must be rewrapped, sealable; its count depends only on the keys at the start |
| `Migration.TotalAfterUpdate` | crates/core/src/kms_local.rs:750-768 | bumping one scope's counts changes the total by that scope's change, whatever the map's order |
| `Migration.CompleteRun` | crates/core/src/kms_local.rs:101-230 | what a complete run reports and leaves, told from the rows before it |
| `Migration.ContextsAreTheReaders` | crates/core/src/kms_local.rs:232-735 | the migration opens and seals each column under the context its service uses, save that it leaves out a proxy token's owner |
| `Migration.SealsAsReadersIff` | crates/core/src/db/sqlite/tokens.rs:63-72 | the migration seals as the service does, for every column but a proxy token of an instance with an owner |
| `Migration.MovedReads` | crates/core/src/db/sqlite/tokens.rs:136-204 | a row as the migration leaves it reads as before to its service, a proxy token by the fallback without an owner |
| `Migration.SharedContextIff` | crates/core/src/kms_local.rs:232-735 | two columns share a context exactly when their names are one text cut at two of its colons |
| `Migration.ContextsAreApart` | crates/core/src/artefacts.rs:296-318 | where namespaces and chat ids hold no colon, as the services demand, no two columns do |
| `Migration.MigrationMissesIff` | crates/core/src/kms_local.rs:454-468 | a row its service reads is one the migration cannot open exactly when it is a proxy token envelope that names an owner |
| `Migration.IssuedTokenStopsMigration` | crates/core/src/db/sqlite/tokens.rs:82-104 | a token issued for an owned instance reads there and stops the migration, dry or not |
| `Columns.SealedReads` | crates/core/src/db/sqlite/tokens.rs:63-204 | every service reads back what it sealed |
| `Columns.LegacyReads` | crates/core/src/envelope.rs:565-573 | every service reads what was sealed under the one key its user had before key ids existed |
| `Columns.UnsealedReads` | crates/core/src/webhooks.rs:1110-1140 | an unsealed webhook body is handed out as it is, an empty artefact as empty, other unsealed bodies not at all |
| `Minting.MintsAndAnswers` | crates/core/src/openrouter.rs:322-390 | for any number of concurrent callers mints are at most one plus the failed persists, all successful callers return the stored key, and an incomplete store was minted for |
| `Minting.RunKeepsInv` | crates/core/src/dyson_reconfig.rs:285-325 | in every run without `forget_secret` one caller holds the lock at a time and every mint is accounted for |
| `Minting.AnswersAgreeIff` | crates/core/src/dyson_reconfig.rs:282-343 | in any run with any number of callers and `forget_secret` at any point, all answered callers agree at every point if and only if no put lands once some caller has been answered |
| `Minting.NextKeysOk` | crates/core/src/dyson_reconfig.rs:285-343 | every step but such a put keeps pending keys distinct, unstored and unanswered, and the stored secret equal to every answer |
| `Minting.ForgettingSplitsCallers` | crates/core/src/dyson_reconfig.rs:327-343 | dropping the lock entry lets two callers return two keys |
| `Minting.LoneCallerIsAnswered` | crates/core/src/openrouter.rs:322-390 | a caller that finds the lock free is answered within nine successful calls, with the stored key or with one minted, stored and recorded for it |
| `Minting.FailedCallEndsCaller` | crates/core/src/openrouter.rs:322-390 | a failed call ends its caller and changes neither the store nor the mints |
| `DockerArgs.DockerRunImage` | crates/core/src/mcp_servers.rs:671-691 | the loop finds the image of the segmentation |
| `DockerArgs.StripDockerRuntimeArgs` | crates/core/src/mcp_servers.rs:803-837 | the loop returns the segmentation without its runtime options |
| `DockerArgs.ValidateDockerStdioArgs` | crates/core/src/mcp_servers.rs:696-797 | accepts exactly the lists whose options are all permitted and that name an image |
| `DockerArgs.FlagsRefuse` | crates/core/src/mcp_servers.rs:776-786 | the deny-list loop, with its early exit for allowed networks, refuses exactly by the text before the equals sign |
| `DockerArgs.FlattenParse` | crates/core/src/mcp_servers.rs:671-898 | segmenting a list loses nothing and gives a well-formed segmentation |
| `DockerArgs.ParseFlatten` | crates/core/src/mcp_servers.rs:671-898 | every well-formed segmentation is found again |
| `DockerArgs.StripIsIdempotent` | crates/core/src/mcp_servers.rs:803-837 | stripping twice is stripping once |
| `DockerArgs.StripLeavesNoRuntime` | crates/core/src/mcp_servers.rs:803-837 | no runtime flag is left in option position; the image and all that follows it are kept |
| `DockerArgs.AcceptedIsStripped` | crates/core/src/mcp_servers.rs:696-837 | an accepted list names an image and is unchanged by stripping |
| `DockerArgs.ImageFollowsOptions` | crates/core/src/mcp_servers.rs:671-691 | the image is the first argument after the options, or the one after `--` |
| `DockerArgs.NoImageWithoutOperand` | crates/core/src/mcp_servers.rs:671-691 | options alone, and any command but `run`, name no image |
| `DockerArgs.LongOptionPermittedIff` | crates/core/src/mcp_servers.rs:743-786 | which long options are let through: those whose name asks for nothing of the host, a network only by an allowed name, `--rm` only as true |
| `DockerArgs.ShortOptionPermittedIff` | crates/core/src/mcp_servers.rs:754-775 | which clusters of short options are let through |
| `DockerArgs.NetworkSpellings` | crates/core/src/mcp_servers.rs:779-783 | both spellings of a network are judged by its name, and only two names are let through |
| `DockerArgs.SocketByName` | crates/core/src/mcp_servers.rs:740-742 | any mention of the Docker socket's file name is refused |
| `Templates.RenderCatalogTemplateString` | crates/core/src/mcp_servers.rs:530-561 | the loop gives the concatenation over the segmentation, and fails exactly where a hole is open or unknown |
| `Templates.SegmentsOfSource` | crates/core/src/mcp_servers.rs:530-561 | every canonical segmentation is the one found, so there is one per template |
| `Templates.SourceOfSegments` | crates/core/src/mcp_servers.rs:530-561 | segmenting loses nothing and gives a canonical segmentation |
| `Templates.RenderedIsConcatenation` | crates/core/src/mcp_servers.rs:530-561 | text without a mark renders as itself, a hole as its value or not at all, and templates one after the other as their outputs one after the other |
| `Templates.HoleNamesField` | crates/core/src/mcp_servers.rs:546-555 | a hole names a field in the singular or the plural, with any white space around it |
| `Catalog.ResolveCatalogPlaceholders` | crates/core/src/mcp_servers.rs:442-503 | which requests are refused, which values are rendered and which are kept |
| `Catalog.KeepingResolvesTheSame` | crates/core/src/mcp_servers.rs:442-503 | keeping, blanking or omitting every field of a resolved binding resolves to the same values |
| `Catalog.ResolveOver` | crates/core/src/mcp_servers.rs:474-482 | over a stored binding a request replaces what it really sets and keeps everything else |
| `Catalog.ResolveFresh` | crates/core/src/mcp_servers.rs:474-489 | over nothing it renders what it really sets, and empty text elsewhere |
| `Catalog.StoredIsLastSet` | crates/core/src/mcp_servers.rs:471-497 | after any sequence of requests a field is as the last one that really set it said, and absent if none did |
| `Catalog.AcceptedIff` | crates/core/src/mcp_servers.rs:447-492 | a request is accepted exactly when the fields are sound and known and every required one has been set by then |
| `Catalog.DockerServerReadsBack` | crates/core/src/mcp_servers.rs:301-392 | a Docker server document is read back as written, if and only if its arguments are acceptable |
| `Catalog.WebServerReadsBack` | crates/core/src/mcp_servers.rs:301-392 | an HTTP server document is read back with its bearer token taken out of the headers |
| `Catalog.ServerStandsUnderOne` | crates/core/src/mcp_servers.rs:563-575 | the server stands under either of two members and not under both |
| `Catalog.InputIsFound` | crates/core/src/mcp_servers.rs:645-664 | an input mark is found wherever it stands in a list or an object |
| `Catalog.RenderingAgainChangesNothing` | crates/core/src/mcp_servers.rs:394-416 | rendering an unchanged template again gives the same name and entry unless authorization headers disagree |
| `Catalog.AmbiguousAuthMayDiffer` | crates/core/src/mcp_servers.rs:633-643 | where they disagree the second rendering may differ |
| `Catalog.TwoTokensMayDiffer` | crates/core/src/mcp_servers.rs:633-643 | an HTTP template with `Authorization` and `authorization` that produces one entry and then may produce another |
| `Catalog.PlainServerIsStable` | crates/core/src/mcp_servers.rs:394-416 | an HTTP template without authorization headers, whose entry every later rendering gives again |
| `McpEdit.FormKeepsCredentials` | crates/core/src/instance.rs:3233-3282 | saving what the form shows, under any url and tool selection, keeps secret, tokens and cached tools |
| `McpEdit.KeepTokenStoredIff` | crates/core/src/instance/mcp_reconcile.rs:44-68 | the keep token itself is stored if and only if it is sent and no other secret of that shape is there to keep |
| `McpEdit.EditIsIdempotent` | crates/core/src/instance.rs:3233-3282 | saving the same form twice is saving it once |
| `McpEdit.EditedIsPlain` | crates/core/src/instance.rs:3233-3287 | saving makes any record a plain server at the given url; a change of shape drops its tokens |
| `McpEdit.TokensSurviveIff` | crates/core/src/instance/mcp_reconcile.rs:7-28 | over any sequence of saves the OAuth tokens survive if and only if no save changes the shape of the authentication |
| `McpEdit.SecretSurvives` | crates/core/src/instance/mcp_reconcile.rs:44-68 | over any sequence of saves that keep the shape and send the keep token the stored secret stays |
| `McpIndex.McpStore.PutServer` | crates/core/src/instance.rs:3209-3304 | refuses a blank name or url and a url that is not allowed without a change; otherwise sets one entry to the edit of what was there and keeps the index exact, if and only if the name is not the index's own or an index is there to refuse it; only this instance's rows change |
| `McpIndex.McpStore.PutVscode` | crates/core/src/instance.rs:3319-3361 | sets one entry and keeps the index exact if and only if the name is not the index's own |
| `McpIndex.McpStore.PutCatalog` | crates/core/src/instance.rs:3383-3448 | re-renders the bound entry, drops its old name on a rename, keeps all others, and keeps the index exact if and only if the new name is not the index's own |
| `McpIndex.McpStore.DeleteServer` | crates/core/src/instance.rs:3560-3603 | removes exactly that entry and its name |
| `McpIndex.McpStore.DeleteVscode` | crates/core/src/instance.rs:3510-3546 | removes one pasted entry if there is any |
| `McpIndex.McpStore.DeleteCatalogFrom` | crates/core/src/instance.rs:3647-3717 | removes exactly one instance's entries bound to the catalog |
| `McpIndex.McpStore.DeleteForCatalog` | crates/core/src/instance.rs:3618-3717 | does so for every listed instance without disturbing another; every instance not listed keeps its entries and index |
| `McpIndex.McpStore.Run` | crates/core/src/instance.rs:3209-3717 | over any sequence of puts, catalog puts, deletes, catalog deletes, copies and erasures on any instances, every index stays duplicate-free and exact up to the first copy whose source does not cover its destination, which is off at that destination only; there is no such copy when each goes to an instance still empty, and an instance no operation is about keeps its entries and index |
| `McpIndex.McpStore.PutAll` | crates/core/src/mcp_servers.rs:918-943 | every given name gets the last entry given for it and every other name keeps its own; the previous configuration is replaced if and only if the list covers it; the index is exact if and only if, besides, the names are distinct and none is the index's own |
| `McpIndex.McpStore.CopyAll` | crates/core/src/mcp_servers.rs:1012-1043 | lays the source's entries over the destination's and writes its index, passing over listed names without a row; fails if and only if the index or a listed row does not parse, and then has copied the entries listed before that row and no index; the destination's index is exact afterwards if and only if the source names nothing or everything the destination had |
| `McpIndex.StrayEntryStays` | crates/core/src/mcp_servers.rs:1012-1043 | copying one server over another of a different name leaves the other's entry out of the index |
| `McpIndex.CopyAgain` | crates/core/src/mcp_servers.rs:1010-1043 | copying a second time changes no row |
| `McpIndex.McpStore.ForgetAll` | crates/core/src/mcp_servers.rs:1045-1072 | leaves no row of the instance |
| `McpIndex.OthersUntouched` | crates/core/src/mcp_servers.rs:901-912 | an operation that keeps to one dot-free instance id leaves every other instance's entries and index as they were |
| `OAuthFlow.OAuthFlowCache.Take` | crates/core/src/mcp_servers.rs:1580-1586 | returns the last insert not taken, exactly when no operation since then saw it expired |
| `OAuthFlow.OAuthFlowCache.Insert` | crates/core/src/mcp_servers.rs:1570-1578 | the pruned map stays what the history of operations says |
| `OAuthFlow.PruningIsInvisible` | crates/core/src/mcp_servers.rs:1565-1586 | with a clock that never goes back a flow survives until its own expiry |
| `OAuthFlow.AnswersAsUnprunedIff` | crates/core/src/mcp_servers.rs:1565-1586 | over any run with any clock the cache gives every answer a map that is never pruned gives, if and only if no take asks for a flow that is valid again after some operation saw it expired |
| `OAuthFlow.SteadyClockAnswersAlike` | crates/core/src/mcp_servers.rs:1565-1586 | with a clock that never goes back all answers of a run agree with the map that is never pruned |
| `OAuthFlow.BackwardClockLosesFlow` | crates/core/src/mcp_servers.rs:1565-1586 | a run whose clock goes back and whose answers differ: a flow that has not expired is lost |
| `OAuthFlow.TakenAtMostOnce` | crates/core/src/mcp_servers.rs:1580-1586 | after a take the state yields nothing until it is inserted again |
| `NetworkPolicy.ResolveEntries` | crates/core/src/network_policy.rs:342-361 | succeeds exactly when every entry resolves, with a strictly sorted list of exactly the union |
| `NetworkPolicy.ResolutionIsUnique` | crates/core/src/network_policy.rs:342-361 | order and repetition of entries do not matter |
| `NetworkPolicy.ResolutionIsIdempotent` | crates/core/src/network_policy.rs:342-361 | a resolved list resolves to itself |
| `NetworkPolicy.EmittedIsFixed` | crates/core/src/network_policy.rs:261-335 | every shape an entry validates to validates to itself |
| `NetworkPolicy.BareAddressIsOneHost` | crates/core/src/network_policy.rs:275-302 | an address without a prefix is that one host |
| `NetworkPolicy.PrefixIff` | crates/core/src/network_policy.rs:294-300 | a prefix is accepted exactly up to 32 |
| `NetworkPolicy.QuadIff` | crates/core/src/network_policy.rs:284-293 | four numbers are an address exactly when each fits an octet |
| `NetworkPolicy.ValidateIs` | crates/core/src/network_policy.rs:261-273 | white space aside, a hostname is taken in lower case and anything else is an address or refused |
| `NetworkPolicy.HostnameIsNoAddress` | crates/core/src/network_policy.rs:307-335 | no valid hostname parses as an address |
| `Probe.UnreachableCounters.Observe` | crates/core/src/probe.rs:115-139 | warns exactly at the third result of an unreachable run of that instance, whatever others report in between |
| `Probe.OneWarningPerLongRun` | crates/core/src/probe.rs:115-139 | warnings are as many as the maximal unreachable runs of at least three |
| `Probe.InstancesAreIndependent` | crates/core/src/probe.rs:115-139 | in any interleaved trace one instance's warnings depend on its own results only, one for each long run |

## Left out

- HTTP clients, sandbox transport, Telegram and OAuth discovery: each call is a success or a failure.
- SQL text, serialisation, the age cipher, Base64 and file permissions: foreign code, taken as stated above.
- I/O errors while reading or writing key files, and the sealed mode of the key directory, in which every call fails.
- 32-bit bounds of key versions and of the probe counter, and 64-bit bounds of sizes and times.
- Freedom from sandbox leaks: the source leaks a sandbox after a failed bind, after a failed recreate commit and after a failed push past the commit.
- `SwapProtocol.RowNeverNamesADoomedSandbox`: covers the four swaps only; the sweep, create and `destroy` are not interleaved with them, because the sweep may destroy a sandbox that a swap is about to mark Live.
- `InstanceService.Service.CreateInstance`: a create whose cleanup cannot write the status leaves a Configuring row that names a doomed sandbox, as its contract says, so the service's invariant does not say that named sandboxes are not doomed.
- `InstanceService.Service.InPlaceSwap`: a quiesce whose reply is lost may leave the latch taken; the source does not resume then, and the statement is about acknowledged quiesces.
- `Secrets.SecretsService.Get`: one call at a time; the rewrap on read is an unconditional write, so concurrent calls may lose one.
- `StateFiles.EveryRunKeepsTheLastWrite`: excludes `forget_user`, which erases legacy bodies.
- `Catalog.RenderingAgainChangesNothing`: parsing the template text as JSON is not part of this model.
- `McpIndex.McpStore.PutServer`: the url checks are a parameter.
- `McpIndex.McpStore.Run`: ends at the first copy that leaves an index off; what later operations do to that instance is not stated.
- `NetworkPolicy.ResolutionIsIdempotent`: needs a resolver that returns addresses with a prefix, as the source's does; how `resolve` combines the lists into allow and deny sets is not modelled.
- Skill, artefact, share, webhook and agent-secret services: they repeat the envelope pattern or add only easy members.
