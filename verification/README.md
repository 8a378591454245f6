# Tervia: a verified model

Tervia keeps SSH and RDP hosts, their groups, a vault of identities and keys, a
keychain of secrets and a set of port-forward rules. This project models the parts of
it where several records, several steps or several concurrent runs have to agree, and
proves what they keep:

- **Importing a backup.** An untrusted file is passed through a chain of clearing,
  merging and ordering passes, then written row by row into stores that refuse a bad
  reference against what they hold at that moment. `JumpChains`, `HostImport`,
  `SavedChains` cover hosts and their jump chains; `GroupMerge`, `GroupWrites`,
  `GroupImport` groups and their parents; `VaultImport`, `ImportSecrets` identities,
  bindings, landed credentials and key records. `BackupImport` and `WholeImport` join
  them into the one operation, from the raw payload to the stores and the keychain,
  with every failing write contained.
- **Moving a credential between a host and the vault.** A multi-step move over one
  keychain and two record stores, with compensating deletes. `Vault` and
  `CredentialMoves` hold the steps and what they mean, `CredentialMover` the calls as a
  class over mutable stores, `ConvertRuns` and `ConvertSafety` any number of converts of
  one host interleaved step by step.
- **Port forwards.** `PageForwards`, `PageLaws` and `PageRuns` are one rule as the Port
  Forwarding page runs it, retry ladder included; `TerminalForwards`, `TerminalRuns`,
  `AutostartRuns` and `ForwardOwnership` every session's autostart run, tab epochs and
  the ownership map, interleaved with that page; `ForwardController` the two mutable stores as classes.
- **Groups as a forest.** `GroupTree` resolves arbitrary stored parent pointers,
  `GroupCounts` builds the tree and the numbers on the chips.

`Records` and `HostStore` hold the shared records and what one host write does.
Concurrent code is modelled as a step machine whose steps are what happens between two
awaits, and its theorems are about every finite sequence of steps. `dafny verify
dfyconfig.toml` checks everything.

## Where the code falls short of what it says

Each has a concrete run or input, and the condition under which the promise holds.

1. *Import and the hop cap.* Clearing looks only at the file's own rows, so a file that
   lengthens a chain can push a **saved** host's chain over `MAX_JUMP_HOPS`
   (`ImportLengthensSavedChain`, for every cap). Nothing else can go wrong with a saved
   chain, and it survives exactly when it resolves over the cleared rows laid over the
   saved ones, which is known before anything is written (`SavedChainsSurvive`).
2. *Group order through a saved group.* `orderGroupWrites` says a cycle can no longer
   reach `upsertGroup`; it orders only parents inside the file, and a chain that leaves
   the file through a saved group and comes back is refused as a cycle
   (`SavedGroupBetween`). Nothing is refused exactly when no row closes a cycle over the
   rows before it (`WriteGroups`), and never when the file writes no parent of a group it
   leaves alone (`NoSavedChildNeverBlocks`).
3. *A late close.* `stopRule` and `startRule`'s yield call `markStopped` after an awaited
   close; if the row was started again meanwhile, a running forward's reference is dropped
   (`LateYieldDropsReference`). `StepTracks` says exactly which steps do that.
4. *A release that releases nothing.* `controller.ts` says a terminal-owned rule never
   holds a page retry; a claim over a failed row leaves its timer pending, and a release
   of the rule then cancels nothing (`ReleaseUnderTerminalStillDials`). With the terminal
   gone again, a late close can mark a row stopped under a dial still on file; the release
   finds nothing to stop, and the dial then publishes (`ReleaseMissesADial`). A dial on
   file keeps its say after a release exactly when a terminal owns the rule, or no retry
   is pending and the row reads neither running nor starting (`OnFileIsSilencedIff`).
   Likewise a rule can be terminal-owned while the page reads it as starting
   (`OwnedWhileStarting`), which a comment in `scripts/forward-autostart-verify.ts` calls
   unconstructible; exactly a claim that lands over a dialling page does it
   (`EntersOwnedStarting`).
5. *Convert and presence flags.* With no key flag set nothing is copied but the password,
   and the release still clears all three accounts (`DeniedKeyIsLost`); on the reuse path
   the host's own passphrase is not kept, which the source accepts.
   `ConvertIsLossless` gives the exact condition.
6. *A blank name for a minted key* is refused by `upsertKey` after the copies have
   landed, and nothing takes them back: every such convert strands its copies
   (`BlankNameStrands`, `KeyIsStranded`), and no other does (`LosersLeaveNothing`). The one
   caller there is, `src/modules/hosts/HostEditorDialog.tsx`, never passes one.
7. *A failed detach* restores the keychain exactly when the accounts it copied onto were
   empty (`FailedDetachRestores`); an orphan there is overwritten and then deleted
   (`OrphanIsLost`).
8. *An imported key's facts.* Between the keychain step and the flag pass, and for good if
   that pass fails or its answer is lost, a key that was already here shows its old facts
   over the file's body (`KeyIsOvertaken`; exactly then, `HonestExceptOvertaken`).
9. *A group's local label* is kept by an import only up to folding: a row for the same
   group that spells the same folded name differently rewrites it, exactly then
   (`CaseRewritesLabel`, `LabelExactly`).

## Model

| member | source | states |
|---|---|---|
| `JumpChains.JumpChain` | src/modules/hosts/jumps.ts:46-73 | The walk with its visited set and hop count refuses exactly the chains that do not resolve, and names what it meets first on the way: a missing hop, an RDP hop, a repeat or the host itself, or one hop more than the cap |
| `JumpChains.ChainResolves` | src/modules/backup/file.ts:814-827 | The import's own walk answers the same question about the same chains |
| `JumpChains.AssertReferences` | src/modules/hosts/store.ts:847-889 | A write is refused exactly when its reference is not acceptable, and exactly when for each reason: its own id, no such host, an RDP host, a blank tunnel, else a chain that does not resolve |
| `JumpChains.WalkDistinct` | src/modules/hosts/jumps.ts:56-72 | A chain that ends within any budget passes no host twice |
| `JumpChains.WalkAgrees` | src/modules/hosts/jumps.ts:56-72 | Two stores that route a chain's hosts alike walk it alike |
| `HostStore.NextRecord` | src/modules/hosts/store.ts:774-836 | A written record is the row in everything but its presence flags; a flag is set exactly for a field the row can own that is reported at its account, or that the replaced record could own and had set |
| `HostImport.ClearedExactly` | src/modules/backup/file.ts:868-894 | The clearing passes change a row only by dropping a reference: a jump exactly when its chain over file and store does not resolve, a tunnel exactly when it does not over the rows the jump pass left |
| `HostImport.KeptChainIsKept` | src/modules/backup/file.ts:847-894 | A reference kept by the pass keeps its whole chain: clearing other rows never breaks it |
| `HostImport.ClearedResolves` | src/modules/backup/file.ts:868-894 | After both passes every reference that is left resolves over the cleared rows and the saved ones |
| `HostImport.ChainOf` | src/modules/backup/file.ts:834-845 | The chain used for ordering, cycles cut: on a resolving chain it is every hop |
| `HostImport.Visit` | src/modules/backup/file.ts:918-929 | One visit emits its row once, ends on any graph, and puts the whole chain ahead of it when chains resolve |
| `HostImport.OrderHostWrites` | src/modules/backup/file.ts:911-933 | The order is a permutation of the rows for any graph, and every hop in the file precedes its users once references are cleared |
| `HostImport.RowIsAccepted` | src/modules/backup/file.ts:896-933 | Each row, against the disk as it stands at its turn, is one the store takes |
| `HostImport.WriteInOrder` | src/modules/backup/apply.ts:807-821 | The write loop refuses nothing, stores each row with every flag the record under it had, leaves everything else untouched, and releases exactly the accounts a saved record owned and its row cannot name |
| `HostImport.ImportHosts` | src/modules/backup/apply.ts:713-821 | Clear, order, write: for every sanitized file and every store no write is refused, every row is stored whole, with the flags the record under it had, and acceptable again in the final store, and what is released is exactly what such rows cannot name |
| `SavedChains.StoredAsPlanned` | src/modules/backup/file.ts:868-933 | What is stored afterwards has exactly the routes of the cleared rows laid over the saved ones |
| `SavedChains.SavedChainEnds` | src/modules/backup/file.ts:868-933 | Every chain of a saved host still ends there, in at most the cap more hops |
| `SavedChains.SavedChainsSurvive` | src/modules/backup/file.ts:868-933 | A saved host the file does not mention keeps its record and a sound chain, and is acceptable afterwards exactly when it resolves over the cleared rows and the saved ones, before any write |
| `SavedChains.ImportLengthensSavedChain` | src/modules/backup/file.ts:868-875 | For every cap, a file whose rows are all kept pushes a saved host one hop over |
| `GroupTree.EffectiveParentId` | src/modules/hosts/groupTree.ts:46-59 | The walk returns the raw parent, or root exactly when the edge is absent, dangling or on a cycle through this group |
| `GroupTree.EffectiveParents` | src/modules/hosts/groupTree.ts:70-75 | Every listed group gets its own stored parent when that is a listed group and the group is on no cycle, and root otherwise |
| `GroupTree.EffectiveIsForest` | src/modules/hosts/groupTree.ts:33-59 | Effective parents never cycle, whatever was stored |
| `GroupCounts.BuildGroupTree` | src/modules/hosts/groupTree.ts:83-98 | Every group appears in the tree exactly once, over exactly the groups whose effective pointers climb to it |
| `GroupCounts.FindNodeIs` | src/modules/hosts/groupTree.ts:109-116 | The search finds a node exactly for a known id, and its subtree is everything below it |
| `GroupCounts.DescendantIds` | src/modules/hosts/groupTree.ts:124-129 | A group and everything below it, nothing for an unknown id |
| `GroupCounts.FilterHosts` | src/modules/hosts/page/derive.ts:238-258 | A filter keeps exactly the hosts its chip means, by the pointers' own reading, in list order |
| `GroupCounts.SumNode` | src/modules/hosts/page/derive.ts:199-203 | The bottom-up sum of a node is the number of hosts filed at or below it |
| `GroupCounts.GroupCounts` | src/modules/hosts/page/derive.ts:185-206 | Each chip's number is the number of hosts its filter keeps, and the total is the ungrouped plus the direct counts |
| `GroupMerge.MergeRowKeeps` | src/modules/backup/file.ts:1405-1420 | Each row of the merge keeps: one holder per folded name, saved labels untouched, every row placed, remapped or kept |
| `GroupMerge.LabelExactly` | src/modules/backup/file.ts:1408-1419 | A saved label changes exactly when the file has a row for that group spelling the same folded name differently |
| `GroupMerge.RowComesOut` | src/modules/backup/file.ts:1405-1420 | No row of the file is dropped: over a saved group it is written exactly under that group's folded name, and a new one exactly when it holds its folded name afterwards, which some group does |
| `GroupMerge.CaseRewritesLabel` | src/modules/backup/file.ts:1408-1419 | One saved group and the file's row for it, under any folding that equates the two spellings |
| `GroupMerge.MergeGroups` | src/modules/backup/file.ts:1391-1435 | Folded names stay unique, saved labels keep their folding and exactly when they change, each row of the file is written, merged into the holder of its name or counted as a kept name, and every host's and group's reference ends at a group that exists: itself, or the holder of its name |
| `GroupWrites.GroupWriteAsks` | src/modules/hosts/store.ts:988-1057 | What a group write has to satisfy, in the stored fields: a name that is not blank and nobody else's, and of a parent or default only if it changes that it is there, is not the group itself and closes no cycle |
| `GroupWrites.UpsertGroup` | src/modules/hosts/store.ts:988-1057 | A group write is refused exactly for a blank or taken name, a changed parent that is the group itself, is missing or closes a cycle, or a changed default naming no identity |
| `GroupWrites.WriteAddsNoCycle` | src/modules/hosts/store.ts:998-1024 | No accepted write puts any group on a cycle it was not on |
| `GroupWrites.Visit` | src/modules/backup/file.ts:960-969 | A visit emits the row after its parent and adds only rows above it |
| `GroupWrites.OrderGroupWrites` | src/modules/backup/file.ts:950-973 | The rows with effective parents, each once, parents in the file first, and nothing written earlier than it is needed |
| `GroupImport.OnlyCyclesRefuse` | src/modules/backup/apply.ts:775-805 | While nothing was refused, a row can be refused only for closing a cycle |
| `GroupImport.MixedNames` | src/modules/backup/apply.ts:791-805 | Whatever was refused, folded names stay unique and saved ones keep their folding |
| `GroupImport.WriteGroups` | src/modules/backup/apply.ts:791-805 | Each row is taken exactly when the store as it stands at its turn takes it, whatever was refused before; nothing is refused exactly when no row closes a cycle over the rows before it; every other row is stored, names stay unique, and no group ends on a cycle it was not on |
| `GroupImport.ResolveGroupDefaults` | src/modules/backup/file.ts:1347-1356 | Only a default naming no identity is dropped, and nothing else changes |
| `GroupImport.WrittenIsSound` | src/modules/backup/file.ts:935-973 | Once all is written each written group has its effective parent, which is stored, and lies on no cycle |
| `GroupImport.ReadyIsNotBlocked` | src/modules/backup/file.ts:935-973 | A row is never refused when every row above it in the planned store is written before it or keeps its parent |
| `GroupImport.NoSavedChildNeverBlocks` | src/modules/backup/file.ts:963-966 | An import that writes no parent of a group it leaves alone is never refused |
| `GroupImport.ImportGroups` | src/modules/backup/apply.ts:708-805 | Merge, resolve defaults, order and write: what becomes of each row, its parent and its default, the counts, the exact condition for no refusal, and, whatever was refused, unique names, saved foldings, and every host at a stored group or at one whose own row was refused |
| `GroupImport.SavedGroupBetween` | src/modules/backup/file.ts:941-966 | Three groups and two rows whose planned store has no cycle, and whose first write is refused as one |
| `VaultImport.NormaliseIdentityKeys` | src/modules/backup/file.ts:1040-1077 | Each identity kept whole, stripped of a dangling key it does not use, or skipped, with both counts |
| `VaultImport.NormalisedIsClosed` | src/modules/backup/file.ts:1003-1077 | Every survivor is one the vault accepts and never changed its auth mode; the rows add up |
| `VaultImport.IdentityComesOut` | src/modules/backup/file.ts:1040-1077 | Each identity of the file is kept as it is, kept without a key it does not authenticate with, or gone, exactly by whether its key will exist and it needs one |
| `VaultImport.RefuseProtocolConflicts` | src/modules/backup/file.ts:994-1001 | Exactly the rows that agree in protocol with the record saved under their id, if any |
| `VaultImport.RefusedInOrder` | src/modules/backup/file.ts:994-1001 | The rows left stand in the file's order, each once |
| `VaultImport.ResolveIdentityBindings` | src/modules/backup/file.ts:1203-1255 | Every row's credential: a saved host keeps its kind of binding and its very identity, an inline row over an inline host its own, and a new host is bound only to an identity that will exist and is blank otherwise; both counts |
| `VaultImport.ResolveCredentials` | src/modules/backup/apply.ts:683-693 | The passes in order: what becomes of every identity of the file, every surviving one naming a key of the file or the vault; every row with the credential its saved host, the file and the surviving identities settle; every row agreeing with the record saved under its id |
| `VaultImport.WritesReleaseNothing` | src/modules/hosts/store.ts:720-750 | Any sequence of writes of such rows, in any order, repeated or refused, leaves the keychain as it was, stores exactly the rows a write took, and touches no other host |
| `ImportSecrets.LandedKeyIsInjective` | src/modules/backup/apply.ts:181-183 | Whatever strings the ids are, two references share a key only if they are one reference |
| `ImportSecrets.LandedSet` | src/modules/backup/apply.ts:904-913 | The set holds a reference's key exactly when that reference was reported written |
| `ImportSecrets.ClaimedIffLanded` | src/modules/backup/apply.ts:444-458 | A host claims a field as stored exactly when it can own it and its own reference landed |
| `BackupImport.ClaimIsEarned` | src/modules/backup/apply.ts:734-945 | At every pass a key record that claims a body did so before the import or sits over the file's own |
| `BackupImport.HonestExceptOvertaken` | src/modules/backup/apply.ts:501-552 | A key record describes the body beneath it at every pass, exactly outside one window |
| `BackupImport.NothingLandedKeepsFacts` | src/modules/backup/apply.ts:501-552 | With no body landed, a key already here keeps its four facts throughout |
| `BackupImport.CollectRows` | src/modules/backup/file.ts:1515-1536 | Usable entries with no id twice, in their order, the first of each id kept, the rest counted |
| `BackupImport.SanitizePayload` | src/modules/backup/file.ts:1559-1586 | Whatever the payload holds, its rows come out with distinct ids, named groups and no tunnel that names nothing; every row is an entry of the file as sanitized, and the first usable entry of every id is a row |
| `BackupImport.WriteKeys` | src/modules/backup/apply.ts:734-751 | Exactly the keys whose write did not fail are saved, with the facts and flags the store had for them |
| `BackupImport.WriteIdentities` | src/modules/backup/apply.ts:753-773 | Exactly the identities whose write did not fail and whose key is stored by then are saved |
| `BackupImport.VaultStaysClosed` | src/modules/vault/store.ts:371-380 | Whichever writes failed, every identity stored by an import names a stored key, and a closed vault stays closed |
| `BackupImport.SecretRefIsInjective` | src/modules/backup/apply.ts:111-157 | The references of the three collections never coincide |
| `BackupImport.KeychainStep` | src/modules/backup/apply.ts:886-913 | Only what landed of what was asked for is written, and the landed set answers exactly for what was reported |
| `BackupImport.FlagHosts` | src/modules/backup/apply.ts:966-979 | The flag pass over the hosts is never refused, each row ends claiming exactly what it can own of what was claimed before and what was reported landed, and no account is released |
| `BackupImport.FlagKeys` | src/modules/backup/apply.ts:925-945 | The loop over the keys, failures contained, leaves each record with the facts of the body recorded and the flags claimed before or recorded now |
| `BackupImport.FlagIdentities` | src/modules/backup/apply.ts:947-964 | The loop over the identities is never refused by the vault and sets exactly the flags of passwords that landed |
| `BackupImport.KeyIsOvertaken` | src/modules/backup/apply.ts:501-552 | One key whose answer is lost: the old facts over the file's body |
| `WholeImport.ImportReleasesNothing` | src/modules/backup/apply.ts:689-717 | Through the protocol filter, the binding pass, the group repoint and the clearing passes, no row the import writes makes any account of a saved host stale |
| `WholeImport.ReleasedIff` | src/modules/hosts/store.ts:720-750 | Rows release nothing exactly when each can name every account the host saved under its id owned |
| `WholeImport.NothingReleased` | src/modules/backup/apply.ts:640-996 | With the store's release run on every host write, every account held before is held after, and only what landed has changed |
| `WholeImport.FlagsStayBacked` | src/modules/backup/apply.ts:915-979 | If every presence flag stood over an account before, every one does after, in all three collections: no pass sets one over nothing, and no write releases an account under one |
| `WholeImport.FlagsStayTrue` | src/modules/backup/apply.ts:915-979 | A saved host whose flags were the truth keeps true flags exactly when everything that landed at a new account of its own was also recorded |
| `WholeImport.SavedHostsStay` | src/modules/backup/apply.ts:640-996 | Every saved host is still there, of its protocol and kind of binding, bound to the identity it was bound to |
| `WholeImport.BindingsStand` | src/modules/backup/apply.ts:753-761 | A host the import bound names a stored identity, or one of the file's whose own write failed |
| `WholeImport.FileStored` | src/modules/backup/apply.ts:692-821 | Every host of the file with no host of the other protocol saved under its id is stored with the file's details and the credential it settled on, at most its reference cleared; every other host is as it was |
| `WholeImport.IdentitiesAreStored` | src/modules/backup/apply.ts:753-773 | Every identity of the file whose key is stored and whose write did not fail is stored as its row |
| `WholeImport.SecretsLand` | src/modules/backup/apply.ts:823-979 | Every secret of the file that belongs to a saved key or identity, or to a host that arrived inline and is not bound here, is at its account once it landed, no other account changed, and exactly the reported ones are recorded |
| `WholeImport.KeysStayHonest` | src/modules/backup/apply.ts:501-552 | In the stores an import leaves, a key record describes the body beneath it exactly unless it was overtaken |
| `WholeImport.ApplyV3` | src/modules/backup/apply.ts:640-996 | All passes and writes joined, with key and identity writes failing, the group store refusing and any part of the keychain step landing: the file's hosts, identities, groups and secrets stored as above; no host refused, no account released, vault closed, flags backed, keys honest, bindings, defaults and references as above |
| `WholeImport.ApplyBackup` | src/modules/backup/apply.ts:640-996 | The same from the raw payload, with nothing asked of the file, the rows being its usable entries |
| `Vault.CopyAllAt` | src/modules/hosts/credentialMove.ts:140-149 | Independent copies account by account: a target holds its source's value if there was one, nothing else moves |
| `Vault.StampTells` | src/modules/hosts/types.ts:562-566 | Two records have one stamp exactly when neither exists, both own their credentials, or both are bound to one identity |
| `CredentialMoves.UndoRestores` | src/modules/hosts/credentialMove.ts:336-354 | Identity first, then key: the compensating deletes take back exactly what the convert had put in the vault |
| `CredentialMoves.ConvertedReads` | src/modules/hosts/credentialMove.ts:409-668 | What a converted host authenticates with, field by field, on the mint, reuse and no-key paths; its own accounts are gone |
| `CredentialMoves.ConvertedFlagsAreTrue` | src/modules/hosts/credentialMove.ts:586-648 | The new records' presence flags are the truth about their accounts |
| `CredentialMoves.ConvertIsLossless` | src/modules/hosts/credentialMove.ts:47-54 | A convert loses or replaces no secret exactly under a condition on the keychain before it |
| `CredentialMoves.HonestMintIsLossless` | src/modules/hosts/credentialMove.ts:190-197 | That condition holds on the mint path for a record whose flags agree with the keychain |
| `CredentialMoves.DeniedKeyIsLost` | src/modules/hosts/credentialMove.ts:190-197 | Flags that deny stored key material lose it |
| `CredentialMoves.NamedKeyIsHeld` | src/modules/hosts/credentialMove.ts:624-648 | Whatever key the new identity names, in any mode, the key store then refuses to delete |
| `CredentialMoves.ReuseTouchesNoKey` | src/modules/hosts/credentialMove.ts:561-585 | Reuse writes no key record and, in the vault, only the new identity's password |
| `CredentialMoves.ReusableKey` | src/modules/hosts/credentialMove.ts:281-287 | An offer is made exactly when some record has a body, is a plain key and matches a non-blank fingerprint |
| `CredentialMoves.ReusableKeyIsFirst` | src/modules/hosts/credentialMove.ts:269-287 | The first such record wins |
| `CredentialMoves.ReuseAcceptedIff` | src/modules/hosts/credentialMove.ts:524-559 | Pre-check 4 accepts a reuse exactly when the record there now could have been offered for that fingerprint |
| `CredentialMoves.PreCheckIs` | src/modules/hosts/credentialMove.ts:442-559 | Exactly when each refusal is made before a byte moves; key auth without a key exactly for an inline SSH host in key mode with neither key flag |
| `CredentialMoves.ConvertMeans` | src/modules/hosts/credentialMove.ts:561-668 | What a convert leaves, record by record and account by account: the identity's user, mode and key, the minted key's name, fingerprint and flags, each account's value |
| `CredentialMoves.DetachCopies` | src/modules/hosts/credentialMove.ts:109-133 | A detach copies a field exactly when the host can own it and the vault holds what the host would read |
| `CredentialMoves.DetachedReads` | src/modules/hosts/credentialMove.ts:861-915 | A detached host reads what it read before, or what was at its own account, and its flags say which |
| `CredentialMoves.DetachLeavesVault` | src/modules/hosts/credentialMove.ts:822-841 | A detach never writes the vault |
| `CredentialMoves.FailedDetachRestores` | src/modules/hosts/credentialMove.ts:798-820 | Undoing the copies restores the keychain exactly when the accounts copied onto were empty |
| `CredentialMoves.OrphanIsLost` | src/modules/hosts/credentialMove.ts:769-772 | One host with an orphan at its account: the failed detach deletes it |
| `CredentialMoves.ConvertThenDetach` | src/modules/hosts/credentialMove.ts:409-915 | A lossless convert followed by a detach gives the host back its accounts, values, flags, user and auth mode |
| `CredentialMoves.DetachMeans` | src/modules/hosts/credentialMove.ts:861-915 | What a detach leaves: the host unchanged but inline again with the identity's user and mode and a copy of every secret it read, every other account and record as it was |
| `CredentialMoves.RoundTrip` | src/modules/hosts/credentialMove.ts:409-915 | Convert with its own key, then detach: the host store is what it was, records and all, and so is every account of the host service |
| `CredentialMover.Mover.CopyMoves` | src/modules/hosts/credentialMove.ts:140-149 | The sequential copies, and the fields that copied |
| `CredentialMover.Mover.UpsertHost` | src/modules/hosts/store.ts:907-986 | References, stamp, record with every flag the replaced one had, release, with a commit that throws and accounts that cannot be cleared |
| `CredentialMover.Mover.UndoConvert` | src/modules/hosts/credentialMove.ts:336-354 | Both guarded deletes, refusals swallowed |
| `CredentialMover.Mover.ConvertHostToVault` | src/modules/hosts/credentialMove.ts:409-668 | Exactly when each outcome comes about: done, with the identity, key and accounts spelled out; a blank key name, any other refusal, a throw; a refusal restores records and keychain whole, but for a blank key name, which leaves the copies; a throw after the record was set leaves the new records in place |
| `CredentialMover.Mover.UndoCopies` | src/modules/hosts/credentialMove.ts:798-820 | Deletes what copied while the stored record is bound or gone, nothing once it is inline or the re-read throws |
| `CredentialMover.Mover.DetachHostFromVault` | src/modules/hosts/credentialMove.ts:861-915 | Every outcome: detached, with the record and accounts spelled out; refused and undone, refused over an inline record, thrown after the record was set; and when it warns |
| `ConvertRuns.OwnRun` | src/modules/hosts/credentialMove.ts:584-668 | A step of one convert keeps what may be said of its own records and accounts |
| `ConvertRuns.OtherRun` | src/modules/hosts/credentialMove.ts:584-668 | And is invisible to every other convert |
| `ConvertRuns.BlankNameStrands` | src/modules/hosts/credentialMove.ts:586-612 | Every convert minting under a blank name ends with all its copies in the vault and no record over them |
| `ConvertRuns.KeyIsStranded` | src/modules/hosts/credentialMove.ts:586-612 | One such convert leaves a private key at an account no record names |
| `ConvertSafety.NoSecondWin` | src/modules/hosts/store.ts:915-927 | Once one convert's host write landed, the stamp refuses every other's |
| `ConvertSafety.RunKeeps` | src/modules/hosts/credentialMove.ts:409-668 | The invariant over every interleaving of converts of one host, with throwing commits and stuck accounts |
| `ConvertSafety.AtMostOneCommits` | scripts/credential-move-verify.ts:1000-1121 | At most one convert's host write ever lands |
| `ConvertSafety.LosersLeaveNothing` | scripts/credential-move-verify.ts:1000-1171 | A convert that failed before landing has left no identity, key or vault account; only a blank key name strands copies |
| `ConvertSafety.CrashSafe` | src/modules/hosts/credentialMove.ts:381-383 | At every instant of every interleaving the host still authenticates with the secret it had |
| `ConvertSafety.Serializable` | scripts/credential-move-verify.ts:1000-1121 | When all converts have ended with no fault left behind, stores and keychain are as before, or as the winner alone would have left them |
| `ConvertSafety.SomeoneCommits` | scripts/credential-move-verify.ts:1000-1121 | When all have ended with no fault left behind and one of them could have gone through at the start, exactly one has: rivals never all lose |
| `ConvertSafety.RunAloneCommits` | src/modules/hosts/credentialMove.ts:409-668 | A convert that could go through runs to its end alone and leaves its committed world |
| `PageRuns.RunKeeps` | src/modules/forwards/controller.ts:216-819 | The page's invariant over every event sequence: one timer at most, none during an attempt, ladders at one place, references accounted for |
| `PageLaws.StatusAfter` | src/modules/forwards/controller.ts:216-676 | Every change of a row's status, by what it read of the terminal, and no other |
| `PageLaws.ClosesAfter` | src/modules/forwards/controller.ts:261-305 | Every close begun and the reference it returns: one for a running row that is stopped or released, one for a superseded dial, one for a yielded one, and no other |
| `PageLaws.OriginsAfter` | src/modules/forwards/controller.ts:719-819 | A dial keeps who asked for it: a person, a launch at its first rung, a retry at its own |
| `PageLaws.StopComesDown` | src/modules/forwards/controller.ts:566-651 | A Stop, or a release, of an unowned running row awaits one close of its reference; over every run, until somebody starts the rule again, that close is still awaited or the row is stopped and the reference gone |
| `PageLaws.StopIsImmediate` | src/modules/forwards/controller.ts:566-651 | Any other unowned row reads stopped at once and stays so until somebody starts it |
| `PageLaws.StartComesUp` | src/modules/forwards/controller.ts:246-305 | A started row keeps its dial on file over every run that leaves it alone, until that dial comes back |
| `PageLaws.ComesUpAs` | src/modules/forwards/controller.ts:270-340 | And then it runs, has failed, or is stopped under a terminal |
| `PageRuns.LadderBounds` | src/modules/forwards/controller.ts:108-113 | A ladder makes at most six dials, its delays are a prefix of the backoff, and it raises at most one error |
| `PageRuns.NeverCurrentAgain` | src/modules/forwards/controller.ts:155-159 | An attempt that is not on file never is again |
| `PageRuns.StaleDialsAreSilent` | src/modules/forwards/controller.ts:246-333 | After a Stop, a new Start, or a release behind its guard, none of them on a terminal's rule, no outcome of an earlier dial ever changes the status or schedules anything |
| `PageRuns.OnFileIsSilencedIff` | src/modules/forwards/controller.ts:538-676 | And exactly then: otherwise the dial on file keeps its say |
| `PageRuns.QuietAfterStop` | src/modules/forwards/controller.ts:566-651 | After a Stop nothing dials and no row comes up until somebody starts it |
| `PageRuns.ReleaseEndsPending` | src/modules/forwards/controller.ts:538-676 | A release ends a pending start exactly when the page must stop first |
| `PageRuns.StepTracks` | src/modules/forwards/controller.ts:216-651 | Exactly which steps drop a reference nothing else names |
| `PageRuns.CarefulRunsTrack` | src/modules/forwards/controller.ts:549-556 | A run that starts no row that is running or has a close awaited never drops one |
| `PageRuns.LateYieldDropsReference` | src/modules/forwards/controller.ts:288-300 | Six events after which a running forward has been marked stopped |
| `PageRuns.ReleaseMissesADial` | src/modules/forwards/controller.ts:538-676 | Five events, no terminal involved at the end, after which a release does nothing and a dial then publishes |
| `TerminalRuns.StepKeeps` | src/modules/forwards/autostart.ts:217-441 | Every step of tabs, runs, closes and page keeps the system invariant: listeners held once, tabs and epochs counted, owners excluding each other |
| `TerminalRuns.RunKeeps` | src/modules/forwards/autostart.ts:217-441 | So it holds in every state of every interleaving |
| `AutostartRuns.RunsStayOnList` | src/modules/forwards/autostart.ts:217-395 | In every reachable state of a run that is live and was not cut short, the rules it was listed are those it settled, then the one in hand, then the rest, in order |
| `AutostartRuns.DoneSettlesAll` | src/modules/forwards/autostart.ts:248-388 | Such a run that is done has settled every rule it was listed, once each: skipped, failed, yielded or claimed |
| `AutostartRuns.ClaimsAreMade` | src/modules/forwards/autostart.ts:323-381 | After a bind on a live session a free rule is claimed by the very listener bound, and any other listener is closed and the list gone on with |
| `AutostartRuns.RunAloneTakesAll` | src/modules/forwards/autostart.ts:217-395 | A run alone, its binds succeeding, over rules nobody owns and the page neither runs nor starts, ends owning all of them |
| `AutostartRuns.DeadRunEnds` | src/modules/forwards/autostart.ts:256-311 | A run whose session is over asks for nothing more, closes what it holds, and ends |
| `AutostartRuns.CloseGoesOn` | src/modules/forwards/autostart.ts:323-388 | A close the run awaited goes on with the rest of the list, the listener down or on the books as lost |
| `ForwardOwnership.NoOrphans` | scripts/forward-autostart-verify.ts:1398-1548 | Each open listener has exactly one holder, no entry names a dead one, and once things are quiet what is open is what the map names |
| `ForwardOwnership.NeverTwoOwners` | src/modules/forwards/hostOwned.ts:22-36 | The page never has a rule running that a terminal has claimed |
| `ForwardOwnership.SomeoneOwns` | src/modules/forwards/autostart.ts:296-381 | A bind on a live session and an unsuperseded dial each leave the rule exactly one owner, so the two sides never both yield |
| `ForwardOwnership.OneRunPerEpoch` | src/modules/forwards/autostart.ts:397-418 | A session has an epoch exactly while a tab is attached, and an attach starts a run exactly when none was |
| `ForwardOwnership.LastDetachReleases` | src/modules/forwards/autostart.ts:420-441 | The last detach releases and owes a close to all of its session's entries and no other's; any other detach, repeated ones too, leaves the map alone |
| `ForwardOwnership.OverForGood` | src/modules/forwards/autostart.ts:397-398 | An epoch that is over stays over |
| `ForwardOwnership.LateBindNeverClaims` | src/modules/forwards/autostart.ts:296-311 | Nothing an over epoch opened is ever in the map, whatever epochs its session has since |
| `ForwardOwnership.OwnedWhileStarting` | scripts/forward-autostart-verify.ts:1793-1819 | A rule can be terminal-owned while the page reads it as starting |
| `ForwardOwnership.EntersOwnedStarting` | src/modules/forwards/autostart.ts:323-381 | A step makes a rule so exactly when it is a claim by a bind on a live session, of a rule nobody owned, over a page that is dialling |
| `ForwardOwnership.ReleaseUnderTerminalStillDials` | src/modules/forwards/controller.ts:588-592 | A claimed rule with a retry pending; released, it dials once the tab is gone |
| `ForwardController.Row.Begin` | src/modules/forwards/controller.ts:221-247 | No timer is left live; a terminal's rule is otherwise untouched; any other gets exactly one more dial, alone on file, and every dial already out loses its say |
| `ForwardController.Row.DialResolves` | src/modules/forwards/controller.ts:247-305 | Which of three: an unowned dial on file is published and its reference kept, a dial a terminal has overtaken and a superseded one are each owed one close; the invariant is kept |
| `ForwardController.Row.DialRejects` | src/modules/forwards/controller.ts:306-340 | A superseded dial changes neither status nor timers; one on file leaves the row stopped under a terminal and failed otherwise, with the next rung's timer exactly after a transport failure with a rung left; references stay; the invariant is kept |
| `ForwardController.Row.RungFailed` | src/modules/forwards/controller.ts:797-818 | Exactly one of one more error and one more timer, the timer at the next rung with that rung's delay; the error exactly on a parking failure or the last rung; other ladders untouched |
| `ForwardController.Row.CloseReturns` | src/modules/forwards/controller.ts:288-300 | A close that came back gives back its reference, and marks the row stopped exactly when it was a yield or a Stop that awaited it |
| `ForwardController.Row.StopRule` | src/modules/forwards/controller.ts:566-651 | Nothing for a terminal's rule; else no timer is live, no dial in flight has a say any more, and a running row awaits one close of its reference while any other reads stopped |
| `ForwardController.Row.ReleaseRule` | src/modules/forwards/controller.ts:674-676 | Behind its guard it does what a Stop does, otherwise it changes nothing |
| `ForwardController.OwnedMap.ReleaseSession` | src/modules/forwards/autostart.ts:431-441 | The session's entries leave the map and only they are owed a close; nothing is lost or counted twice |

## Left out

- `bindHostToIdentity`, editor-side choices and their notes: one existence check and one host write.
- Field sanitizers, pins, tags, tombstones, clocks and counts added/replaced: each is settled by one branch.
- Secret **values** are moved and compared, never inspected; sealing, the OS keychain and the backend are ports that succeed or fail.
- References that a store keeps as optional strings are taken as absent or non-blank; a tunnel's host id may arrive blank, and the sanitizer drops it.
- Groups and hosts are ordered and displayed by keys the model does not carry; sibling order in the tree is list order.
- Forward rules in a backup: `clearDanglingRuleHosts`, write 5 and the release before it.
- Host and group writes that fail for a reason outside the stores (a full disk): a group write fails in the model only by the store's own refusal, key and identity writes, their flag writes and the keychain step also for any other reason.
- Name folding (trim and lower case) is an arbitrary function, the same one in the merge and in the store.
- Typed (`-R`/`-D`) rules, host-key prompts, banners and toast text; the ladder's toasts are counted.
- The moment between a rung's failure and the scheduling of the next is one step of the page machine.
- A copy that throws midway and minted ids that collide with existing ones: converts are given fresh ids and total copies.
- A key rotated in place between the editor opening and a convert.
- Converts of one host that reuse a key another of them is only now minting.
- A session that ends by itself rather than by its last tab, and the backend's own reclaiming of its listeners.
- CredentialMoves.ConvertThenDetach: stated for the fields both the stored and the loaded protocol own.
