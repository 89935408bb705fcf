# A verified model of encgit

encgit keeps an encrypted git repository in a store that need not be trusted. Clients share a
manifest pointer and a roster pointer, both swapped by compare-and-swap, a keyfile without it, and
content-addressed blobs. This project models the protocol and the formats under it in Dafny and
proves what they are for. `dafny verify dfyconfig.toml` checks all of it.

## The protocol

`Documents` takes cryptography symbolically: a digest is the term that was hashed, a signature is the
signing key together with what it signed, a ciphertext names key, repository, nonce and plaintext, a
keyfile names the X25519 keys that open it. What signing and hashing rely on, that the encoded bytes
determine the document and are determined by it, is proved below in `Jcs` and the wire modules.

`Protocol` states every client operation as a function of what it reads. `LocalState` and `Helper` are
the operations as they execute, classes whose methods change the engine, the local state file, the git
directory and the store step by step; each method is proved equal to its function. `Push` is also proved
against interference: before its preamble and before every store call after it other clients may extend
the history.

Three kinds of run are then considered.

- `Membership`, `Runs` and `Removal`: whole operations in any order, by any clients with any local state,
  on an honest store. The three pointers stay consistent, a failed operation changes none of them, the key
  generation counts the rotations, every live pack is present, everything the live refs reach is in the
  live packs. A rekey keeps refs and plaintexts; who can add,
  remove and fetch, and what a removal takes away, is stated exactly.
- `Saves`, `ClientRuns`, `Written` and `Verdicts` say the same operations in the stored documents and the
  saved fields alone: what each saves, that no client ever forgets a key it has met, that every document in
  the store names its repository and its signer, and which answer every check gives to what.
- `Interleaving` and `Linearizability`: store calls of any number of pushes, membership changes and
  rekeys interleaved in any way. The live refs are the fold of the successful pushes, every live pack is
  present at every step, also in the middle of a rekey's deletions, and a push that gives up has seen at
  least 16 commits of others. `Alone` ties the two machines together: the calls of a client that nobody
  disturbs come to exactly what `Protocol` says of the whole operation. `Crashes` says at which calls a
  process that dies leaves the other members unable to read.
- `ForkConsistency`, `RosterChain` and `ClosedRuns`: a store that answers anything. Pinned manifests and
  trusted rosters form hash chains, clients that forked never meet again, keyfile generations never go
  down, a removed signer is never accepted again. `ClosedRuns` proves what the other two assume of the
  signers: the store may serve whatever it likes, old or made up, but valid signatures only if a client
  made them in the same run.

## The formats

`Utf`, `Jcs`, `JcsEncoder` and `JcsDecoder` are the canonical JSON encoder of RFC 8785 (sections
3.2.2.2 and 3.2.3), the buffer-writing recursion, the UTF-16 member order, and a reader that undoes it.
`JcsForm` says its order, escapes and numbers in code points and literals. `ManifestWire` and `RosterWire`
are the field maps on top: bytes agree exactly when the documents do. `WireReader` parses them by name and
gets the document back, `WireText` is their text member by member, `Fingerprints` the keys in hexadecimal.
`BitGroups`, `Checksum` and `Bech32` are the bech32 encoder of BIP-173 with its 32-bit loops, and the
decoder of that standard which undoes it; `FiveBits` is the regrouping in plain numbers and
`Bech32Vectors` the encoder on vectors of the standard, one of them with every symbol.

## The stores and the server

`LocalFs` is the directory store one call at a time, `Register` its blob and version files as several
processes read and write them in single steps. `Backoff` is the doubling of the login window in 64-bit
arithmetic, `Throttle` its self-pruning table, `Pacing` what both together promise, `Accounts` and
`AccountRuns` the account, token, invite and bootstrap tables and their runs, `Passwords` who gets in and
what every token goes back to, `Server` the login handler that composes them.

## What turned out not to hold

- A full rekey records the new packs as imported without importing them
  (internal/helper/membership.go:373). `Runs.RekeyImportsExactly` says when that record is right, and
  `Runs.RekeyBeforeFetchImportsNothing` that a member who rekeys before the first fetch is told by the
  next fetch to be up to date and gets no history.
- A removal takes the keyfile away from the removed member exactly when no remaining member has the same
  X25519 key (`Runs.RemovalExactly`), and the right to sign exactly when none has the same Ed25519 key
  (`Removal.RemovalSilencesExactly`). A fingerprint covers both keys, so additions that share one are
  accepted: `Removal.SharedKeyStillOpens` and `Removal.SharedKeyStillSigns` are runs from Init in which the
  removed member still opens the keyfile, or signs manifests that are accepted.
- A stored pin of version 0 counts as no pin. So what a client pins is a chain for every store exactly if
  it already has a pin (`ForkConsistency.ChainsExactly`); a client without one that is served signed
  manifests of versions 0 and 5 pins both although the second does not follow the first
  (`ForkConsistency.VersionZeroUnchains`). Clients never sign a version 0, and then every client's pins are
  a chain (`ClosedRuns.ClosedForks`).
- A push compares what it is served with nothing: it keeps the chain of a pinned client exactly if it was
  served the pinned manifest, at its version or a later one (`ForkConsistency.PushFollowsExactly`). Served a
  signed manifest of version 1, a client pinned further on pushes over it and its pin goes back to version 2
  (`ForkConsistency.PushMovesPinBack`); only a fetch detects a rollback.
- A process that dies between the calls of a membership operation may leave a document under a key that
  only it had, or a manifest bound to the roster before. `Crashes.CrashPoints` says after which calls the
  other members can still read.
- `sort.Slice` by fingerprint has one outcome exactly when fingerprints are distinct
  (`RosterWire.SortDetermined`).
- A crash between the two file writes of a local swap lets the next swap succeed over a blob that was
  never committed (`Register.TornCrashBreaks`). A roster read takes the blob before the version, so its
  version may belong to a later blob (`Register.RosterVersionMisleads`); the helper is safe because it
  uses the version written in the document (`Register.RosterSwapWon`), except at version 0, which a second
  Init may commit again: a swap from the first genesis then replaces the second (`Register.SecondGenesisLost`).
- A login that checked its password before the account was disabled may store its token afterwards, and
  the token works once the account is enabled again (`AccountRuns.LoginRaceOutlivesDisable`); the
  comment at internal/server/storage.go:312-314 counts on the disabled flag alone.
- The backoff doubles in 64-bit arithmetic. It is min(MAX, BASE * 2^(n-1)) for every count exactly when
  BASE is at most half the range and so is every BASE * 2^j below MAX (`Backoff.BackoffExactly`). Otherwise
  some count gets no window although it should: a base above half the range at the second failure, a base
  of one second without a ceiling at the 35th (`Backoff.NoCeilingOverflows`).
- Pruning resets a count, so the windows pace failures exactly when the grace time makes up for all
  windows below the ceiling (`Pacing.PacingExactly`); with less, two bursts with a pause between them come
  too fast (`Pacing.TooLittleGrace`). The built-in configuration has enough (`Pacing.DefaultIsForgiving`).

## Model

| member | source | states |
|---|---|---|
| Helper.Server.CASManifest | internal/store/store.go:1-55 | swaps the manifest exactly when the stored version is the expected one |
| Helper.Server.CASRoster | internal/helper/engine.go:77-79 | the roster swap, where an absent roster counts as version 0 |
| Helper.Engine.RefreshPackKeys | internal/helper/engine.go:125-157 | reads the keyfile, fails for a non-recipient, and remembers every key it ever unwrapped |
| Helper.Engine.DecryptPack | internal/helper/engine.go:175-189 | opens a pack exactly with the current key or any remembered one |
| Helper.Engine.CheckKeyfileGeneration | internal/helper/engine.go:195-206 | passes exactly when keyfile and roster name the same nonzero generation |
| Helper.Engine.LoadTrustedRoster | internal/helper/roster.go:79-141 | advances the pin exactly to a direct, higher, hash-linked successor signed by a member of the pinned roster, or takes the first roster seen |
| Helper.Engine.VerifyManifestWithRoster | internal/helper/engine.go:217-235 | binding hash first, then signer membership, then signature, with that order of errors |
| Helper.Engine.LoadCurrent | internal/helper/engine.go:244-264 | the live manifest opened and verified, or none at version 0 |
| Helper.Engine.ImportPack | internal/helper/engine.go:268-286 | imports exactly a blob whose content address is the id and which a held key opens |
| Helper.Engine.EnsureLocalObjects | internal/helper/engine.go:291-302 | imports the packs not yet recorded, in order, up to the first failure |
| Helper.Engine.CommitPush | internal/helper/engine.go:391-430 | commits over the version that was read, as a legal next commit of the history, or reports that others committed |
| Helper.Engine.Attempt | internal/helper/engine.go:350-430 | one round of the loop; it asks for another only when somebody else committed meanwhile |
| Helper.Engine.Push | internal/helper/engine.go:307-430 | under interference: passing means exactly one commit of its own, which is this push, giving up means 16 or more commits meanwhile and none its own; alone it equals the operation's function |
| Helper.Engine.Judge | internal/helper/engine.go:475-492 | rollback, equivocation and chain break told apart by version and hash |
| Helper.Engine.Fetch | internal/helper/engine.go:435-512 | verifies, judges, imports, updates refs, and only then saves the new pin |
| Helper.Engine.RepublishManifest | internal/helper/membership.go:252-286 | re-issues the live manifest over the version it read, same refs and packs, under the new roster and key |
| Helper.Engine.AddMember | internal/helper/membership.go:54-142 | the checks in order, then roster, keyfile, manifest and pins, equal to the operation's function |
| Helper.Engine.RemoveMember | internal/helper/membership.go:151-245 | as adding, with a new key and the next generation |
| Helper.Engine.ResealPacks | internal/helper/membership.go:348-374 | re-encrypts the live packs in order under the new key, stopping at the first that cannot be opened |
| Helper.Engine.FinishRekey | internal/helper/membership.go:403-441 | keyfile, then roster, then the deletion of the old packs, then the saved state |
| Helper.Engine.FullRekey | internal/helper/membership.go:292-441 | the whole rekey, equal to the operation's function |
| Helper.Init | internal/helper/engine.go:36-81 | generation 1, genesis roster version 0 with the founder alone |
| LocalState.Record.HasKey | internal/localstate/localstate.go:42-49 | found exactly when the key is in the list |
| LocalState.Record.AddKey | internal/localstate/localstate.go:52-56 | appends a key once |
| LocalState.Record.HasPack | internal/localstate/localstate.go:103-110 | found exactly when the pack is recorded |
| LocalState.Record.AddPack | internal/localstate/localstate.go:113-117 | appends a pack id once |
| Packs.ImportPacksExactly | internal/helper/engine.go:291-302 | importing succeeds exactly when every missing pack can be imported, and then everything they hold is local |
| Packs.ResealAllMeaning | internal/helper/membership.go:348-374 | re-encryption keeps the plaintexts position by position under the new key and removes no blob |
| Packs.ResealAllExactly | internal/helper/membership.go:348-374 | it succeeds exactly when the caller holds a key for every pack |
| Packs.UpdateRefsExactly | internal/helper/engine.go:503-507 | refs are all set exactly when every target object is local |
| Packs.ReachExactly | internal/helper/engine.go:373-378 | what a push must cover, the objects reachable from a ref, is what walks along links lead to |
| Packs.PushStaysClosed | internal/helper/engine.go:356-399 | objects packed as want minus have keep the manifest closed under reachability |
| Membership.EnterExactly | internal/helper/engine.go:307-330 | on a consistent store an operation gets past its preamble exactly when the client is a recipient and its roster pin is current |
| Membership.PushConsistent | internal/helper/engine.go:307-430 | a push keeps the three pointers consistent, adds exactly its refs and at most one pack, and if it fails changes no pointer |
| Membership.AddConsistent | internal/helper/membership.go:54-142 | adding keeps consistency, content and key, adds exactly the verified member, and if it fails changes no pointer |
| Membership.RemoveConsistent | internal/helper/membership.go:151-245 | removing keeps consistency and content, drops exactly the target, moves to a new key and generation, and if it fails changes no pointer |
| Membership.RekeyConsistent | internal/helper/membership.go:292-441 | a rekey keeps consistency and members, moves to a new key and generation, and if it fails changes no pointer |
| Membership.AddExactly | internal/helper/membership.go:54-142 | adding succeeds exactly for a member with a current pin who gives the verified fingerprint of somebody not listed |
| Membership.RemoveExactly | internal/helper/membership.go:151-245 | removing succeeds exactly for a member with a current pin who names another member |
| Saves.PushExactly | internal/helper/engine.go:307-430 | a push succeeds exactly for a member with a current pin, something to push and keys for what is live; it then saves both live pins, every key and exactly the live packs |
| Saves.AddSaves | internal/helper/membership.go:121-142 | a successful addition saves the live roster and manifest as pins and keeps every key |
| Saves.RemoveSaves | internal/helper/membership.go:219-245 | so does a removal, and it saves the new key |
| Saves.RekeySaves | internal/helper/membership.go:403-441 | so does a rekey, which records exactly the new packs |
| Saves.FetchSaves | internal/helper/engine.go:435-512 | a fetch saves the pin and packs of what it accepted and otherwise neither; it never loses a key |
| Saves.FailedChangeSavesNothing | internal/helper/membership.go:54-245 | a failed addition or removal has saved only what its preamble saved |
| Saves.FailedRekeySavesNothing | internal/helper/membership.go:292-441 | the same for a failed rekey |
| ClientRuns.ClientsHoldTheirKeys | internal/helper/engine.go:125-157 | in every run of clients with saved state, each still holds every key wrapped to it when it acted and every key current when an operation of its own succeeded |
| ClientRuns.WhoActedCanFetch | internal/helper/engine.go:435-512 | so a member with current pins fetches everything if the packs it misses are under such keys or the current one |
| Written.GenesisExactly | internal/helper/engine.go:36-81 | the stored genesis field by field |
| Written.RunsNameTheRepository | internal/helper/engine.go:391-399 | after Init and any run the live manifest and roster state the repository's own id |
| Written.CommitsNameTheRepository | internal/helper/engine.go:391-407 | in every interleaving every committed manifest states the repository's id and its committer, with that client's signature |
| Written.PushWrites | internal/helper/engine.go:391-407 | on any store, what a push writes is a manifest of this repository by this client |
| Written.AddWrites | internal/helper/membership.go:86-120 | the same for what an addition writes |
| Written.RemoveWrites | internal/helper/membership.go:190-218 | the same for a removal |
| Written.RekeyWrites | internal/helper/membership.go:376-425 | the same for a rekey |
| Verdicts.FirstRosterExactly | internal/helper/roster.go:47-109 | the first roster is trusted exactly if it is readable and, where it lists its author, signed by it |
| Verdicts.PinnedRosterExactly | internal/helper/roster.go:111-141 | with a pin each acceptance and each error has its own condition |
| Verdicts.EntersExactly | internal/helper/engine.go:125-206 | on any store the preamble passes exactly for a recipient who trusts the roster and finds one nonzero generation in both documents |
| Verdicts.VerifiesExactly | internal/helper/engine.go:217-235 | a manifest passes exactly if bound to the roster and signed by a member; the error names the first that fails |
| Verdicts.OpensExactly | internal/helper/engine.go:244-264 | only the current key opens a manifest |
| Verdicts.LoadsExactly | internal/helper/engine.go:244-264 | none at version 0; otherwise the opened manifest under the version the store has |
| Verdicts.JudgesExactly | internal/helper/engine.go:475-492 | equivocation, rollback, chain break, up to date and acceptance, each exactly when |
| Verdicts.SwapsExactly | internal/store/store.go:1-55 | either pointer is swapped exactly from the expected version, and nothing else changes |
| Verdicts.AddRefusals | internal/helper/membership.go:54-84 | each refusal of an addition, in order, leaving the store as it was |
| Verdicts.RemoveRefusals | internal/helper/membership.go:151-174 | each refusal of a removal, in order, leaving the store as it was |
| Verdicts.ImportsExactly | internal/helper/engine.go:268-286 | a pack is imported exactly if it hashes to its id, a held key opens it and it is a pack; each error exactly when |
| Verdicts.ResealsExactly | internal/helper/membership.go:348-374 | from a store that answers anything, re-encryption succeeds exactly if every answer hashes to its id and a held key opens it |
| Runs.RunsFromInit | internal/helper/membership.go:54-441 | after Init and any sequence of operations by anyone: pointers consistent, generation 1 plus rotations, live packs present, manifest closed under reachability |
| Runs.RekeyMeaning | internal/helper/membership.go:292-441 | a rekey succeeds exactly for a member who can enter and holds a key for every live pack; it keeps refs and plaintexts in place, with all packs under the new key, new ids, and the old blobs gone |
| Runs.RemovalExactly | internal/helper/membership.go:151-245 | the removed identity loses the keyfile exactly when no remaining member has its X25519 key |
| Runs.RemovedStaysOut | internal/helper/membership.go:151-245 | while nobody adds that X25519 key again, its holder opens no later keyfile |
| Removal.RemovalSilencesExactly | internal/helper/membership.go:151-245 | the roster after a removal lacks the removed member's signing key exactly when no remaining member lists it |
| Removal.RejectedExactly | internal/helper/engine.go:217-235 | under a trusted roster no manifest signed with a key opens exactly when the roster lacks the key |
| Removal.RemovedMemberIsRejected | internal/helper/engine.go:217-235 | after such a removal a client pinned to the new roster accepts no manifest signed with that key, now or later, until it is added again |
| Removal.SharedKeyStillOpens | internal/helper/membership.go:71-84 | three operations from Init after which a removed member opens the keyfile with the X25519 key of another |
| Removal.SharedKeyStillSigns | internal/helper/membership.go:71-84 | three operations from Init after which manifests signed with a removed member's key are accepted |
| Runs.FetchExactly | internal/helper/engine.go:435-512 | on an honest store a fetch succeeds exactly when the manifest pin is absent, current or the predecessor and the missing packs' keys are held; then all the live refs reach is local |
| Runs.FreshMemberFetches | internal/helper/membership.go:292-441 | after a rekey and until the next removal every member with empty local state fetches the whole history |
| Runs.RekeyImportsExactly | internal/helper/membership.go:371-374 | the imported-pack record after a rekey is right exactly when the packs' objects were already local |
| Runs.RekeyBeforeFetchImportsNothing | internal/helper/membership.go:371-374 | a member who rekeys before fetching is afterwards told to be up to date and imports nothing |
| Linearizability.PushesLinearizable | internal/helper/engine.go:350-430 | for every interleaving: live refs are the fold of the successful pushes in commit order, the version counts the commits, each is hash-linked, packs only grow but for rekeys |
| Linearizability.PacksStayPresent | internal/helper/membership.go:348-431 | at every step of every interleaving, also inside a rekey's deletions, every live pack is stored under its address and the live refs are covered |
| Linearizability.GivingUpMeansContention | internal/helper/engine.go:350-430 | a push that gave up has seen at least 16 commits since it began, all by others |
| Linearizability.SixteenRounds | internal/helper/engine.go:350-430 | a push that loses its round saves the packs it has imported and starts another exactly up to the sixteenth |
| Linearizability.LostSwapEnds | internal/helper/membership.go:115-142 | a membership change or rekey that loses a swap stops without changing the store or its saved state |
| Linearizability.SuccessIsOneCommit | internal/helper/engine.go:415-427 | a push that succeeded is one commit of its own made after it began, and the saved version and hash are that commit's |
| Linearizability.StepInv | internal/helper/engine.go:350-430 | every store call of every operation keeps the history legal, live packs present and every client's reads snapshots |
| Linearizability.RekeyDeleteInv | internal/helper/membership.go:426-431 | deleting an old pack never removes one the live manifest, or another client's next manifest, lists |
| ForkConsistency.PushFollowsExactly | internal/helper/engine.go:350-427 | after a successful push the new pin is a direct, higher successor of the old one exactly if the pinned manifest was served, at its version or later |
| ForkConsistency.PushMovesPinBack | internal/helper/engine.go:350-427 | any pinned member served a signed version 1 pushes over it and is then pinned to version 2 |
| Alone.PushAlone | internal/helper/engine.go:307-430 | on any store, the calls of an undisturbed push leave exactly the store, saved state and git directory of the whole operation |
| Alone.AddAlone | internal/helper/membership.go:54-142 | the calls of an undisturbed addition leave exactly the store and saved state of the whole operation |
| Alone.RemoveAlone | internal/helper/membership.go:151-245 | the same for a removal |
| Alone.RekeyAlone | internal/helper/membership.go:292-441 | the same for a rekey with any number of packs, also where it fails half way |
| Crashes.CrashPoints | internal/helper/membership.go:86-441 | an addition, removal or rekey killed after any number of calls leaves the other members able to enter and read the live manifest exactly if it was not killed at one of the named points |
| ForkConsistency.ForkConsistent | internal/helper/engine.go:469-511 | whatever the store answers, two clients that pin the same manifest agree on everything before it, and after pinning different successors they never agree again |
| ForkConsistency.ChainsExactly | internal/helper/engine.go:453-511 | everything a client can ever pin is a hash chain, whatever the store answers, exactly if the client already has a pin |
| ForkConsistency.VersionZeroUnchains | internal/helper/engine.go:473-492 | an unpinned client can be made to pin two manifests of which the second does not follow the first |
| RosterChain.OperationsSignHonestly | internal/helper/membership.go:86-100 | adding, removing and rekeying sign only rosters that differ from the trusted one by one such change |
| RosterChain.TrailLinked | internal/helper/roster.go:79-141 | whatever the store serves, the rosters a client trusts form a chain, each signed by a member of the one before and one change away from it |
| RosterChain.GenerationsRise | internal/helper/engine.go:195-206 | the generations of the keyfiles a client accepts never go down |
| RosterChain.RemovedSignerRejected | internal/helper/engine.go:217-235 | once a client's trusted roster lacks a signing key it accepts no manifest signed with it, until that key is added to a later roster |
| ClosedRuns.EverythingServedIsHonest | internal/helper/membership.go:86-100 | in every run over a store that cannot sign, every signed roster it serves is one membership change from its predecessor and every signed manifest has version 1 or more |
| ClosedRuns.ClosedTrails | internal/helper/roster.go:79-141 | in every such run each client's trusted rosters are one chain and the generations it accepts never go down |
| ClosedRuns.ClosedForks | internal/helper/engine.go:453-511 | clients fetching from what such a run serves agree before every manifest they share and never rejoin after a fork |
| ClosedRuns.ClosedRejection | internal/helper/engine.go:217-235 | in such a run a client whose trusted roster lacks a key accepts no manifest signed with it while nobody adds it, whatever old documents are replayed |
| ClosedRuns.AddSends | internal/helper/membership.go:86-142 | what an addition writes carries only signatures the runs allow it to make |
| ClosedRuns.RemoveSends | internal/helper/membership.go:190-245 | the same for a removal |
| ClosedRuns.FullRekeySends | internal/helper/membership.go:376-441 | the same for a rekey |
| ClosedRuns.WholePushSends | internal/helper/engine.go:391-430 | the same for a push |
| RosterChain.PushVisits | internal/helper/engine.go:307-430 | a push moves the roster pin only through its preamble |
| RosterChain.FetchVisits | internal/helper/engine.go:435-512 | a fetch moves the roster pin only through its preamble |
| Jcs.JcsLess | internal/manifest/jcs.go:102-111 | the loop over code units decides the lexicographic order of the UTF-16 encodings |
| Jcs.LessIsStrictTotalOrder | internal/manifest/jcs.go:100-111 | that order is irreflexive, transitive and total on distinct strings |
| Jcs.IncreasingUnique | internal/manifest/jcs.go:78-83 | an increasing key list is determined by its set of keys, so output does not depend on map order |
| Jcs.SortedKeys | internal/manifest/jcs.go:78-83 | keys collected in any order come out as the one increasing list |
| JcsEncoder.EncodeString | internal/manifest/jcs.go:116-145 | appends the quoted and escaped text of the string |
| JcsEncoder.EncodeValue | internal/manifest/jcs.go:36-76 | appends the canonical text of the value, and fails exactly on a value with an unsupported part |
| JcsEncoder.EncodeObject | internal/manifest/jcs.go:78-98 | members in increasing key order |
| JcsEncoder.CanonicalJson | internal/manifest/jcs.go:23-34 | the canonical bytes, or an error exactly for unsupported values |
| JcsDecoder.ReadText | internal/manifest/jcs.go:36-145 | for every nested value and whatever may legally follow, reading returns exactly the value and the rest |
| JcsDecoder.DecodeBytes | internal/manifest/jcs.go:23-34 | decoding the canonical bytes returns the value |
| JcsDecoder.BytesInjective | internal/manifest/jcs.go:19-22 | different values have different canonical bytes |
| JcsForm.LessExactly | internal/manifest/jcs.go:100-111 | the member order in code points: first difference, with those beyond U+FFFF before U+E000 |
| JcsForm.EscapesExactly | internal/manifest/jcs.go:116-145 | what every single character is written as |
| JcsForm.DecimalShortest | internal/manifest/jcs.go:36-76 | numbers have no leading zeros |
| Utf.Utf16Injective | internal/manifest/jcs.go:103-104 | UTF-16 tells strings of scalar values apart |
| Utf.FromUtf8OfUtf8 | internal/manifest/jcs.go:118-142 | the UTF-8 that is written reads back |
| ManifestWire.SigningBytes | internal/manifest/manifest.go:79-81 | never fails, and gives the canonical bytes of the fields without sig |
| ManifestWire.SignedExactly | internal/manifest/manifest.go:50-81 | signed bytes agree exactly when every field but sig agrees, nil and empty refs or packs being the same |
| ManifestWire.CanonicalExactly | internal/manifest/manifest.go:85-98 | hashed bytes agree exactly when every field agrees |
| ManifestWire.SignedIsNotCanonical | internal/manifest/manifest.go:50-87 | signed bytes are never the bytes of a signed document |
| WireReader.ParsesManifest | internal/manifest/manifest.go:36-87 | reading the bytes by the names of the wire type gives back exactly the manifest, or the manifest without its signature |
| WireText.ManifestText | internal/manifest/manifest.go:50-87 | the bytes in full: each member by its literal name, in order |
| RosterWire.FindByFingerprint | internal/roster/roster.go:219-226 | the first member with that fingerprint, or none |
| RosterWire.SortedMembers | internal/roster/roster.go:92-111 | the same members in fingerprint order, or an error exactly for a malformed key |
| RosterWire.SortDetermined | internal/roster/roster.go:92-111 | sorting by fingerprint has one outcome exactly when fingerprints are distinct |
| RosterWire.CanonicalBytes | internal/roster/roster.go:113-161 | the bytes of the fields over the sorted members |
| RosterWire.CanonicalExactly | internal/roster/roster.go:92-161 | with distinct fingerprints the bytes agree exactly when members agree up to order and all other covered fields agree |
| RosterWire.BindingHash | internal/roster/roster.go:178-184 | the hash of the signed bytes, the same for every order of distinct members |
| RosterWire.Hash | internal/roster/roster.go:165-171 | the hash of the bytes with sig, the same for every order of distinct members |
| RosterWire.RosterIsNoManifest | internal/roster/roster.go:126-141 | no roster bytes are manifest bytes |
| WireReader.ParsesRoster | internal/roster/roster.go:113-161 | reading the bytes by name gives back exactly the roster with its members sorted |
| WireText.RosterText | internal/roster/roster.go:113-161 | the bytes in full, with the three names of a listed member |
| Fingerprints.FingerprintExactly | internal/roster/roster.go:54-78 | a member has a fingerprint exactly if both keys are 64 hexadecimal digits |
| Fingerprints.FingerprintOfKeys | internal/roster/roster.go:54-78 | it hashes the X25519 key followed by the Ed25519 key, whatever the case of the digits and the name |
| Fingerprints.TextLessExactly | internal/roster/roster.go:106 | members are ordered by the first difference of their fingerprints |
| Checksum.ComputePolymod | internal/bech32/bech32.go:23-35 | the nested loop computes the register |
| Checksum.TapsLinear | internal/bech32/bech32.go:28-32 | the feedback is linear over exclusive or |
| Checksum.StepInjective | internal/bech32/bech32.go:25-33 | the register step is injective on 30-bit states |
| Checksum.HrpExpand | internal/bech32/bech32.go:39-50 | high bits, a zero, low bits |
| Checksum.CreateChecksum | internal/bech32/bech32.go:52-61 | six five-bit groups of the register |
| Checksum.ChecksumVerifies | internal/bech32/bech32.go:52-61 | for every human-readable part and data the register over expansion, data and checksum ends at 1 |
| Checksum.NoticesOneError | internal/bech32/bech32.go:23-61 | no two words that pass the check differ in exactly one symbol |
| BitGroups.ConvertBits | internal/bech32/bech32.go:63-89 | the loop over a wrapping accumulator cuts the input's bit string anew, with the three errors exactly where they belong |
| BitGroups.RoundTripExactly | internal/bech32/bech32.go:63-89 | for all widths, regrouping with padding and back without returns the input exactly when the padding is shorter than an input group |
| BitGroups.BytesRoundTrip | internal/bech32/bech32.go:63-89 | for all bytes 8 to 5 never fails and 5 to 8 undoes it without a padding error |
| FiveBits.RegroupsFive | internal/bech32/bech32.go:63-89 | five bytes become the eight symbols given by their quotients and remainders, and the rest follows |
| FiveBits.RegroupsLast | internal/bech32/bech32.go:63-89 | the last one to four bytes become as many symbols as they need of what they are with zeros after them |
| Bech32Vectors.SymbolsExactly | internal/bech32/bech32.go:19 | the character of every value, in literals |
| Bech32Vectors.StepExactly | internal/bech32/bech32.go:21-35 | the register step with its five words in literals |
| Bech32Vectors.EverySymbolVector | internal/bech32/bech32.go:93-125 | the vector of BIP-173 that uses every symbol, from bytes to text with its checksum |
| Bech32Vectors.ShortVector | internal/bech32/bech32.go:93-125 | the vectors without data in both cases |
| Bech32.EncodeRefusals | internal/bech32/bech32.go:93-109 | each refusal exactly when: empty, a character out of range, letters of both cases |
| Bech32.Encode | internal/bech32/bech32.go:93-125 | the encoder with its checks in order and its case rule |
| Bech32.DecodeEncode | internal/bech32/bech32.go:93-125 | succeeds exactly on valid human-readable parts, and the BIP-173 decoder returns that part in lower case and the bytes |
| Bech32.OneWrongSymbol | internal/bech32/bech32.go:52-61 | one wrong symbol in an accepted text, in either case, is reported as a bad checksum, or as mixed case if it has the other case |
| LocalFs.Store.PutBlob | internal/store/localfs/localfs.go:59-71 | stores under the content hash only, refuses a mismatch, and leaves a present blob alone |
| LocalFs.Store.DeleteBlob | internal/store/localfs/localfs.go:168-177 | removes that blob and no other; absence is no error |
| LocalFs.Store.CasManifest | internal/store/localfs/localfs.go:148-165 | swaps both files exactly from the expected version |
| LocalFs.Store.CasRoster | internal/store/localfs/localfs.go:217-245 | the same for the roster, an absent blob counting as version 0 |
| Register.StepIsRegister | internal/store/localfs/localfs.go:148-165 | version and committed blob change only by a swap that names the current version, to the next one, and a swap is refused only if it names another |
| Register.SwapWonOnWhatWasRead | internal/store/localfs/localfs.go:117-165 | absent torn crashes, a swap from the version that was read succeeds only if the blob that was read is the one committed at it |
| Register.RosterSwapWon | internal/store/localfs/localfs.go:200-245 | a roster swap from the version the document states has replaced that very document if it is past version 0 or only one genesis was committed |
| Register.SecondGenesisLost | internal/store/localfs/localfs.go:215-245 | after a second Init a swap from the first genesis replaces the second one unseen |
| Register.TornCrashBreaks | internal/store/localfs/localfs.go:157-162 | every crash between the two writes lets the next swap succeed over a blob that was never committed |
| Register.RosterVersionMisleads | internal/store/localfs/localfs.go:200-213 | the version returned beside a roster blob may belong to a later blob |
| Backoff.BackoffSeconds | internal/server/throttle.go:28-44 | the loop computes the wrapped doubling for all durations and counts |
| Backoff.BackoffExactly | internal/server/throttle.go:28-44 | it is min(MAX, BASE * 2^(n-1)) for every count exactly when no doubling below the ceiling leaves the 64-bit range |
| Backoff.NoCeilingOverflows | internal/server/throttle.go:28-44 | one second without a ceiling opens no window at the 35th failure |
| Throttle.OpenExactly | internal/server/throttle.go:118-140 | a request is let through exactly if neither its address's nor its username's window is running; pruning opens none |
| Throttle.AttemptExactly | internal/server/throttle.go:118-190 | what a failed, successful or other request leaves in every row |
| Throttle.Table.Status | internal/server/throttle.go:118-140 | prunes long-expired rows and returns the later of the two windows |
| Throttle.Table.Fail | internal/server/throttle.go:146-173 | counts one failure on both keys and opens the window of the new count |
| Pacing.AllPaced | internal/server/throttle.go:118-173 | with enough grace n failed checks on one username, or from one address, without success take at least the first n - 1 windows, although pruning can reset the count |
| Pacing.PacingExactly | internal/server/throttle.go:118-173 | that holds for all requests exactly when the grace time covers all the windows' shortfalls from the ceiling |
| Pacing.TooLittleGrace | internal/server/throttle.go:118-140 | with less grace there are requests that fail faster than the windows allow |
| Pacing.DefaultIsForgiving | internal/server/server.go:44-46 | the built-in configuration meets the condition; its windows fall short of the ceiling by 297 seconds in all |
| Pacing.DefaultWindows | internal/server/server.go:44-46 | its windows are 1, 2, 4, 8, 16, 32 and then 60 seconds |
| Pacing.DefaultGrace | internal/server/server.go:44-46 | it forgets a count an hour after its window and not before |
| Server.Handler.HandleLogin | internal/server/server.go:239-297 | logged in, unauthorized and busy each exactly when; only a failed check is counted, success clears both counts, and blocked requests touch no account |
| Accounts.Storage.EnsureBootstrap | internal/server/storage.go:177-200 | a new token exactly when there is neither an admin nor an unused token |
| Accounts.Storage.ConsumeBootstrap | internal/server/storage.go:209-237 | claims the token and makes an admin, or changes nothing |
| Accounts.Storage.ConsumeInvite | internal/server/storage.go:444-485 | claims the invite, makes the account and binds it to the invite's repository and role, or changes nothing |
| Accounts.Storage.Login | internal/server/storage.go:255-288 | succeeds exactly if an enabled account has that name and that stored password and the token is new; unknown, wrong and disabled are one error; success stores the token for that account |
| Accounts.Storage.Authenticate | internal/server/storage.go:293-323 | the account of a stored, unexpired token of an enabled account |
| Accounts.Storage.DisableAccount | internal/server/storage.go:331-365 | refuses the last enabled admin, otherwise sets the flag and deletes exactly the account's tokens |
| Accounts.Storage.EnableAccount | internal/server/storage.go:369-382 | clears the flag and restores nothing else |
| Accounts.Storage.CasManifest | internal/server/storage.go:508-534 | swaps from the expected version to the next |
| Accounts.Storage.CasRoster | internal/server/storage.go:557-581 | swaps from the expected version to the given one |
| Passwords.CheckedExactly | internal/server/storage.go:255-278 | a check passes exactly for the enabled account with that name and stored password |
| Passwords.TokensAreEarned | internal/server/storage.go:209-288 | in every run each stored token was issued to a session that had presented the name and password its account was made with |
| Passwords.DisabledExactly | internal/server/storage.go:331-365 | refused exactly for an unknown name and the last enabled admin |
| Passwords.DisabledShutsOut | internal/server/storage.go:331-365 | afterwards no password and no token opens that account, and nothing changes for others |
| Passwords.EnabledLetsIn | internal/server/storage.go:369-382 | the stored password opens the account again, and no token comes back |
| Passwords.BootstrappedExactly | internal/server/storage.go:209-237 | an unused token and a free name make an admin with that password, once |
| Passwords.InvitedExactly | internal/server/storage.go:423-440 | a new invite can be redeemed up to its expiry, for its repository and role |
| Passwords.RedeemedExactly | internal/server/storage.go:444-485 | redeemed exactly if known, unused, unexpired and the name free; once |
| Passwords.GrantedExactly | internal/server/storage.go:400-406 | sets that role and no other |
| AccountRuns.OneAdminOrTokenAlways | internal/server/storage.go:177-237 | from the first EnsureBootstrap on, unused bootstrap tokens and admins together are one, and the admin is never disabled |
| AccountRuns.InvitesMatchAlways | internal/server/storage.go:444-485 | used invites correspond one to one to invited accounts |
| AccountRuns.RedeemGivesInvited | internal/server/storage.go:457-484 | a redeemed invite gives a new account exactly the repository and role it was made for, once |
| AccountRuns.AuthenticatesExactly | internal/server/storage.go:255-382 | a token authenticates exactly if it was issued, its account not disabled since, is enabled, and the token has not expired |
| AccountRuns.LoginRaceOutlivesDisable | internal/server/storage.go:268-287 | a login that checked before a disabling and stores its token after it survives the disabling |

## Left out

- Real cryptography (age, HKDF, Ed25519, X25519, SHA-256, argon2id): terms that satisfy the usual symbolic assumptions, or a parameter where bytes are hashed.
- git itself: `generatePack`, `indexPack` and `updateRef` are their contracts (objects of want minus have, within want; refs only to present objects).
- HTTP routing, JSON request decoding, the client side of the HTTP store, configuration, clone, token files, scripts: plumbing around the modelled operations.
- Go's JSON parser: documents are read by a reader of the canonical form; in the protocol a `form` number stands for other texts that parse to the same document.
- Roster members in `Protocol` are a set with well-formed keys; a list with repeated entries or malformed hex is only in `RosterWire`.
- Interference is proved into the method only for Push; Fetch and the membership methods of `Helper` have the store to themselves, and their interleavings are in `Interleaving`.
- Random draws are numbered, so two are never equal; new tokens are required to be new.
- Versions, times and counts are unbounded integers except in the bech32 loops and the backoff; 64-bit wrap-around of versions is not modelled.
- Disk errors, and database errors other than constraint violations; of crashes those between store calls and those between the file writes of `Register`.
- Client addresses are given: `clientIP` is not modelled. Hash slots are one yes or no per request.
- ClientRuns.WhoActedCanFetch: for a client whose recorded packs are in its repository, which a rekey before a fetch breaks.
- Pacing.PacingExactly: for a positive base and a grace time that is not negative, with durations that do not wrap; with base 0 there are no windows and `Pacing.AllPaced` covers it.
- Server.Handler.HandleLogin: requires both failure counts below 2^63 - 1, since the counters are unbounded here.
- Crashes.CrashPoints: for a reader whose roster pin is absent or on the live roster, on a store that nobody else changes meanwhile.
- ClosedRuns.ClosedForks: for fetches; what a push does to the chain is in `ForkConsistency.PushFollowsExactly`.
- Bech32.DecodeEncode: the decoder omits the limit of 90 characters of BIP-173, which the encoder does not keep either.
- Register.SwapWonOnWhatWasRead: one pointer at a time.
